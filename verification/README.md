# YouTube-clone client: a Dafny model of its statable core

This project models the logic of a React single-page client for a video
site. It does not model the rendering. The parts it models are:

- `formatDuration`;
- the three Redux slices (`user`, `search`, `channel`);
- the list mutations of the comment list and the channel page;
- tag and text normalisation;
- the submit handlers of sign-up, login, upload, channel creation and video edit;
- the small UI state machines: the header's search debounce and account menu, the channel page's video dropdown, the comment menu and the category chips.

Every component becomes immutable state plus pure functions. A network
request is an `Outcome` parameter (`Success(payload)` or
`Failure(RequestError(serverMessage, message))`). A timer is an event
(`DebounceFire`, `AutoCloseFire`, `TimerFire`) that stands for the moment its
callback would run. The browser's own gates are written out where they
decide whether a handler runs at all:

- a `required` input blocks an empty submit;
- `disabled` blocks clicks;
- `pointer-events-none` makes a closed menu ignore the pointer.

Module layout. Shared modules:

- `Text`: ECMAScript `trim` whitespace, ASCII case mapping, `includes`, `String(n)`, `padStart`, `join`;
- `Outcomes`: `Option`, `Outcome`, and `||` over messages as `FirstTruthy`;
- `Lists`: `filter`, `slice`, `new Set`, id-keyed `map`;
- `Records`: JS objects as maps, `?.`, spread-merge, template text;
- `Entities`: video, comment and channel.

Then there is one module per source file: `Duration`, `UserSlice`,
`SearchSlice`, `ChannelSlice`, `EditVideo`, `Comments`, `YourChannel`,
`HomePage`, `VideoPage`, `Header`, `CategoriesBar`, `UploadVideo`, `SignUp`,
`Login` and `CreateChannel`.

A note on a missing title or description. JavaScript would read `undefined`
here; the model reads the empty string. The guarded sites treat the two
alike (`|| ""`, `|| "Untitled Video"`, `?.slice`). The home page's search
filter is the exception: it lower-cases the title without a guard (see
`HomePage.Filtered` under "## Left out").

## Model

| member | source | states |
|---|---|---|
| Duration.PartsOf | src/utiles/formatDuration.js:2-4 | Minutes and seconds are each below 60. Hours, minutes and seconds recombine to exactly the input. Hours are zero iff the input is under an hour. |
| Duration.PartsUnique | src/utiles/formatDuration.js:2-4 | The split is the only one with minutes and seconds below 60. |
| Duration.Pad | src/utiles/formatDuration.js:6 | A padded field is all digits, at least two long, and exactly two below 100. |
| Duration.PadLong | src/utiles/formatDuration.js:6 | Padding never truncates: from 100 up the field is the full decimal. |
| Duration.PadParse | src/utiles/formatDuration.js:6 | A padded field reads back as its number. |
| Duration.FormatDuration | src/utiles/formatDuration.js:8-14 | Under an hour the text has the `mm:ss` shape; from an hour on, the `hh:mm:ss` shape. |
| Duration.FormatParseRoundTrip | src/utiles/formatDuration.js:1-15 | Reading the displayed fields back as hours, minutes and seconds gives exactly the input. |
| Duration.FormatZero | src/utiles/formatDuration.js:1-15 | Zero seconds shows as `00:00`. |
| Duration.LongHoursInFull | src/utiles/formatDuration.js:6-10 | From 100 hours on, the hour field prints every digit of the hours. |
| UserSlice.Initial | src/utiles/userSlice.js:6-8 | Nobody is logged in initially. |
| UserSlice.Add | src/utiles/userSlice.js:10-13 | `addUser(p)` stores exactly `p`, whatever was stored. |
| UserSlice.Remove | src/utiles/userSlice.js:14-17 | `removeUser` always leaves no user. |
| UserSlice.RemoveIdempotent | src/utiles/userSlice.js:14-17 | Removing twice is removing once. |
| UserSlice.Update | src/utiles/userSlice.js:18-21 | Patched keys take the patch's values and other keys keep theirs. The result is a record even from `null`, and then has exactly the patch's keys. |
| UserSlice.UpdateEmptyKeepsUser | src/utiles/userSlice.js:20 | An empty patch leaves a stored user unchanged. |
| UserSlice.Reduce | src/utiles/userSlice.js:9-22 | The reducer: `addUser` stores its payload, `removeUser` leaves no user, `updateUser` overrides the patched keys and keeps every other key. |
| SearchSlice.Initial | src/utiles/searchSlice.js:4-6 | The search starts as `""`. |
| SearchSlice.Set | src/utiles/searchSlice.js:12-15 | `setSearch(p)` stores `p`, and `""` only for a missing payload. |
| SearchSlice.Clear | src/utiles/searchSlice.js:16-19 | Clearing returns to the initial state, which has no search. Also line 26. |
| SearchSlice.ClearIdempotent | src/utiles/searchSlice.js:16-19 | Clearing twice is clearing once. |
| SearchSlice.Select | src/utiles/searchSlice.js:25 | The selected text, stored again, changes nothing. |
| SearchSlice.HasSearch | src/utiles/searchSlice.js:26 | There is a search iff the text is not all whitespace. |
| SearchSlice.SpacesAreNoSearch | src/utiles/searchSlice.js:14 | Whitespace-only text is stored as typed but counts as no search. Also lines 25-26. |
| ChannelSlice.Initial | src/utiles/channelSlice.js:5-7 | No channel initially. |
| ChannelSlice.Add | src/utiles/channelSlice.js:9-11 | `addChannel(p)` stores exactly `p`. |
| ChannelSlice.Remove | src/utiles/channelSlice.js:12-14 | `removeChannel` leaves no channel. |
| ChannelSlice.RemoveIdempotent | src/utiles/channelSlice.js:12-14 | Removing twice is removing once. |
| ChannelSlice.Update | src/utiles/channelSlice.js:15-17 | Patched keys are overridden and others kept. From `null` the result has exactly the patch's keys. |
| ChannelSlice.UpdateEmptyKeepsChannel | src/utiles/channelSlice.js:16 | An empty patch leaves a stored channel unchanged. |
| Records.Get | src/pages/CreateChannel.jsx:30-31 | `obj?.key` is present iff the object exists and has the key, and is then that key's value. |
| Records.Merge | src/utiles/userSlice.js:20 | `{...a, ...b}` has the union of the keys. `b`'s values win, `a`'s fill the rest, and `null` contributes nothing. |
| Records.MergeEmpty | src/utiles/userSlice.js:20 | Merging nothing into a record gives that record. |
| Text.Trim | src/components/EditVideo.jsx:29 | `trim` leaves no whitespace at either end, and is empty iff the input is all whitespace. |
| Text.TrimIsSlice | src/components/EditVideo.jsx:29 | What `trim` keeps is a contiguous slice of the input with only whitespace on either side. |
| Text.TrimOfTrimmed | src/pages/Login.jsx:86 | Trimming trimmed text changes nothing. |
| Text.TrimIdempotent | src/pages/Login.jsx:86 | Trimming twice is trimming once. |
| Text.ContainsIff | src/pages/HomePage.jsx:51 | `includes` holds iff the needle occurs at some position. |
| Text.Contains | src/pages/HomePage.jsx:51 | `includes`, by recursion on the haystack: the needle is a prefix here or is included further on. `ContainsIff` ties it to an occurrence at some position. |
| Text.ToLower | src/pages/HomePage.jsx:51 | `toLowerCase` keeps the length and maps each character to its lower case (ASCII letters only). |
| Text.ToUpper | src/components/Header.jsx:126 | `toUpperCase` keeps the length and maps each character to its upper case (ASCII letters only). |
| Text.NatToDecimal | src/utiles/formatDuration.js:6 | `String(n)` is all digits, with no leading zero except for 0, and has at most two digits iff `n < 100`. |
| Text.DecimalRoundTrip | src/utiles/formatDuration.js:6 | `String(n)` reads back as `n`. |
| Text.PadStart | src/utiles/formatDuration.js:6 | `padStart` keeps the string as a suffix, fills only on the left, and never shortens. |
| Outcomes.FirstTruthy | src/pages/Login.jsx:46-48 | `a \|\| b \|\| d` yields the first non-empty present message, else the fallback. |
| Lists.Filter | src/pages/HomePage.jsx:50-52 | `filter` keeps an order-preserving subsequence. Its members are exactly the elements that pass, and its length is the count of those elements. |
| Lists.FilterAll | src/pages/HomePage.jsx:51 | A filter that passes everything returns the list unchanged. |
| Lists.FilterCongruent | src/pages/HomePage.jsx:51 | Predicates that agree on the list filter it identically. |
| Lists.ReplaceWhere | src/components/Comments.jsx:151-153 | The id-keyed `map` keeps the length. Matching entries become the replacement; all others stay as they were. |
| Lists.ReplaceKeepsKeys | src/pages/YourChannel.jsx:327-331 | A replacement carrying the same id leaves the id sequence unchanged. |
| Lists.ReplaceAbsent | src/components/Comments.jsx:152 | When no entry has the id, the `map` is the identity. |
| Lists.Dedupe | src/components/EditVideo.jsx:29 | `[...new Set(xs)]` has no duplicates and the same members as `xs`, ordered by first occurrence. |
| Lists.PrefixOfSubsequence | src/pages/Video.jsx:180-181 | A `slice(0, n)` of a subsequence is still a subsequence. |
| EditVideo.Open | src/components/EditVideo.jsx:10-15 | Two tag slots always, missing tags as `""`, and the title and description copied. |
| EditVideo.SetTag | src/components/EditVideo.jsx:90 | Typing in one slot sets it and leaves the other slot untouched. Also line 97. |
| EditVideo.CleanedTags | src/components/EditVideo.jsx:28-30 | At most two tags, each non-empty and trimmed, with no duplicates, each the trim of some input. |
| EditVideo.CleanedTwoSlots | src/components/EditVideo.jsx:28-30 | For the two slots: blank slots are dropped, and slots that trim equal give one tag, the first. |
| EditVideo.BeginSubmit | src/components/EditVideo.jsx:25-38 | Loading on and error cleared. The request carries the video id, the trimmed title and description, and the cleaned tags. |
| EditVideo.FinishSubmit | src/components/EditVideo.jsx:40-52 | `onUpdate`/`onClose` run iff the request succeeded, and the error changes only on failure. Loading is off either way. |
| EditVideo.FailureShowsError | src/components/EditVideo.jsx:49 | A failed save always shows a non-empty error. |
| Comments.Loaded | src/components/Comments.jsx:51-65 | The fetched list, `[]` when absent; a failure changes nothing. |
| Comments.AddComment | src/components/Comments.jsx:68-96 | Blank input does nothing, even logged out. Without a user, `/login` and the list untouched. Otherwise the trimmed text is posted. Success prepends the server's comment before the old list and clears the box. Failure keeps everything. |
| Comments.DeleteClick | src/components/Comments.jsx:99-104 | The target is set, the confirmation opens and the menu closes; the list is untouched. Also lines 264-268. |
| Comments.ConfirmDelete | src/components/Comments.jsx:107-126 | Whatever the outcome, the list loses exactly the target's comments, order kept, every other copy kept (the length is the count of non-target entries). The dialog closes and the target is cleared. |
| Comments.DeleteRemovesTarget | src/components/Comments.jsx:110 | No comment with the target id survives. |
| Comments.DeleteAbsentKeepsList | src/components/Comments.jsx:110 | A target not in the list leaves it unchanged. |
| Comments.AddThenDelete | src/components/Comments.jsx:85 | Posting a fresh comment and deleting it restores the list. Also line 110. |
| Comments.EditClick | src/components/Comments.jsx:129-134 | Edit mode on that comment with its text, and the menu closes. Also lines 273-277. |
| Comments.CancelEdit | src/components/Comments.jsx:136-141 | Edit mode off and edit text `""`; the list is untouched. |
| Comments.EditThenCancel | src/components/Comments.jsx:129-141 | Cancel after Edit returns the edit state to where it was. |
| Comments.SaveEdit | src/components/Comments.jsx:144-166 | On success, exactly the id-matching entries become the server's copy, with length and the other entries kept, and edit mode ends. On failure nothing changes. |
| Comments.SaveKeepsIds | src/components/Comments.jsx:151-153 | A saved comment keeping its id leaves the id order unchanged. |
| Comments.MenuClick | src/components/Comments.jsx:255 | The kebab opens its menu and does not toggle. |
| Comments.MenuClickTwiceStaysOpen | src/components/Comments.jsx:255 | Two clicks leave the menu open. |
| Comments.MouseDown | src/components/Comments.jsx:36-48 | The menu closes iff its id is truthy, its comment's node is mounted and the click is outside; nothing else changes. Also line 251. |
| Comments.InsideClickKeepsMenu | src/components/Comments.jsx:40 | A click inside the menu never closes it. |
| Comments.MenuButtonForAuthor | src/components/Comments.jsx:253 | A logged-in user sees the kebab exactly on their own comments. |
| Comments.LoggedOutSeesAuthorlessMenu | src/components/Comments.jsx:253 | Logged out, the kebab still shows on an authorless comment, since `undefined === undefined`. |
| Comments.Initial | src/components/Comments.jsx:17-27 | No comments, empty input and edit text, no menu, target or edit in progress, confirmation hidden. |
| Comments.TypeComment | src/components/Comments.jsx:175 | Typing sets the comment box and leaves the list alone. |
| Comments.DismissConfirm | src/components/Comments.jsx:292 | The backdrop hides the confirmation and keeps the target and the list. Also line 308. |
| Comments.TypeEdit | src/components/Comments.jsx:225 | Typing sets the edit text, keeping the comment being edited and the list. |
| Comments.MenuButtonShown | src/components/Comments.jsx:253 | The kebab is drawn iff the user's `_id` and the comment author's `_id` are both absent or the same string. |
| YourChannel.Fetched | src/pages/YourChannel.jsx:55-75 | Success stores `res.data.channel`. Failure sets the error to the server's message when there is one, else "Something went wrong", and changes nothing else. |
| YourChannel.Render | src/pages/YourChannel.jsx:146-149 | A truthy error wins, then loading without a channel, then the page. |
| YourChannel.ErrorBeforeLoading | src/pages/YourChannel.jsx:146-149 | An error stays on screen even after a channel arrives. |
| YourChannel.OwnerNeedsMatchingChannel | src/pages/YourChannel.jsx:227 | The controls show iff a user is logged in whose `channel` is this channel's id. |
| YourChannel.DropdownClick | src/pages/YourChannel.jsx:231-235 | Clicking the open video's dots closes its menu. Any other video's dots open that video's menu. Nothing else changes. |
| YourChannel.DropdownClickTwice | src/pages/YourChannel.jsx:233-235 | Two clicks from closed return to closed. |
| YourChannel.DotsOfOpenMenuReopen | src/pages/YourChannel.jsx:89-100 | The outside-mousedown that precedes a click on the open menu's dots closes the menu, and the click reopens it. Also lines 231-244. |
| YourChannel.EditItem | src/pages/YourChannel.jsx:140-143 | The edit dialog opens on the video and the dropdown closes. Also lines 249-252. |
| YourChannel.DeleteItem | src/pages/YourChannel.jsx:111-114 | The confirmation opens on the id and the dropdown stays as it was. Also line 259. |
| YourChannel.MouseDown | src/pages/YourChannel.jsx:89-100 | The dropdown closes iff it is open, its node is mounted and the click is outside; nothing else changes. |
| YourChannel.TimerFire | src/pages/YourChannel.jsx:103-108 | The 3-second timer closes an open dropdown and nothing else. |
| YourChannel.ConfirmDelete | src/pages/YourChannel.jsx:117-137 | The video leaves the list only after a successful request, order, every other copy and the channel fields kept; failure keeps the list. The dialog closes and the target clears either way. |
| YourChannel.RetryAfterFailedDelete | src/pages/YourChannel.jsx:117-137 | A failed delete followed by a retry is the same as one successful delete. |
| YourChannel.OnUpdate | src/pages/YourChannel.jsx:325-334 | Id-matching videos become the update and all others stay. The length and the channel's own fields are kept, and the dialog closes. |
| YourChannel.UpdateKeepsOrder | src/pages/YourChannel.jsx:327-331 | The id sequence of the videos is unchanged. |
| YourChannel.Initial | src/pages/YourChannel.jsx:25-37 | No channel, error, open dropdown, target or video being edited; both dialogs hidden. |
| YourChannel.IsOwner | src/pages/YourChannel.jsx:227 | The controls belong to the user whose `channel` field equals this channel's id. |
| YourChannel.MenuMounted | src/pages/YourChannel.jsx:244 | The node behind `dropdownRef` exists iff the page is shown and one of its videos carries the open id. Also line 91. |
| YourChannel.DismissConfirm | src/pages/YourChannel.jsx:276 | The backdrop or "Cancel" hides the confirmation, keeping the target and the channel. Also line 293. |
| YourChannel.CloseEdit | src/pages/YourChannel.jsx:315 | The edit dialog closes, keeping the channel and the video being edited. Also line 324. |
| HomePage.Loaded | src/pages/HomePage.jsx:20-35 | Loading ends either way. Success replaces the videos; failure sets "Failed to load the videos". |
| HomePage.CategoryEndpoint | src/pages/HomePage.jsx:57-66 | "All" requests `/video`, any other category `/video/tags/<category>`. |
| HomePage.EndpointDeterminesCategory | src/pages/HomePage.jsx:57-66 | Different categories request different paths. |
| HomePage.CategorySelected | src/pages/HomePage.jsx:54-71 | Success replaces the videos; failure sets "Failed to fetch category videos". |
| HomePage.Filtered | src/pages/HomePage.jsx:50-52 | An order-preserving subsequence holding exactly the videos whose lower-cased title includes the lower-cased search, every copy of each kept (its length is the number of matching entries). |
| HomePage.KeptIffTitleHasSearch | src/pages/HomePage.jsx:51 | A video is kept iff the lower-cased search occurs at some position of its lower-cased title. |
| HomePage.EmptySearchKeepsAll | src/pages/HomePage.jsx:51 | An empty search shows every video, in order. |
| HomePage.SearchIgnoresCase | src/pages/HomePage.jsx:51 | Lower-casing the query does not change the result. |
| HomePage.CatExample | src/pages/HomePage.jsx:50-52 | Example: "cat" keeps "Cats" and "Catalog" and drops "Dogs". |
| HomePage.Render | src/pages/HomePage.jsx:38-48 | Loading, then a truthy error, then the grid of matches, or the "No videos found" line iff nothing matches. Also lines 88-96. |
| HomePage.CategoryFailureSticks | src/pages/HomePage.jsx:46-48 | After a failed category switch, the error stays whatever loads next. Also line 69. |
| HomePage.Initial | src/pages/HomePage.jsx:13-15 | No videos, loading, no error. |
| VideoPage.Fetched | src/pages/Video.jsx:34-55 | Success stores the video. Failure sets the message to the server's when present, else "Unable to fetch video", and changes nothing else. |
| VideoPage.Render | src/pages/Video.jsx:81-87 | The error wins. Otherwise it is loading iff there is no video, else the page. |
| VideoPage.FailureShowsError | src/pages/Video.jsx:48-50 | A failed fetch shows the error view. Also lines 81-83. |
| VideoPage.ViewRequest | src/pages/Video.jsx:58-78 | The view is registered iff a user is logged in and the video's id is known, at `/video/<id>/view`. |
| VideoPage.NoViewWhenLoggedOut | src/pages/Video.jsx:62 | Logged-out visitors never add a view. |
| VideoPage.Count | src/pages/Video.jsx:152 | The like or dislike count is the array's length, 0 when absent. Also line 155. |
| VideoPage.DisplayTitle | src/pages/Video.jsx:108 | Never empty; the title itself when it is non-empty. |
| VideoPage.ShownDescription | src/pages/Video.jsx:164-166 | Expanded shows the whole text. Collapsed shows a prefix of length `min(150, length)`. |
| VideoPage.ToggleIffTruncated | src/pages/Video.jsx:166-167 | The toggle exists iff the collapsed text hides something. |
| VideoPage.ToggleTwice | src/pages/Video.jsx:169 | Toggling twice restores the state. |
| VideoPage.ShownTags | src/pages/Video.jsx:179-181 | The first two non-blank tags in order: a prefix of the non-blank tags, of length two or their count if smaller, each untrimmed and a member of the input. |
| VideoPage.TagLineShape | src/pages/Video.jsx:179-183 | The line is "", `#a`, or `#a #b`, according to how many tags survive. |
| VideoPage.TagsNotTrimmed | src/pages/Video.jsx:180-182 | Example: kept tags print untrimmed and a blank one between them is skipped. |
| VideoPage.OnlyFirstTwo | src/pages/Video.jsx:181 | Example: of three non-blank tags only the first two appear. |
| VideoPage.BlankTagsDrawEmptyLine | src/pages/Video.jsx:177-183 | A non-empty array of blank tags still draws the line, empty. |
| VideoPage.Initial | src/pages/Video.jsx:25-27 | No video, no error message, description collapsed. |
| VideoPage.HasToggle | src/pages/Video.jsx:166 | "Show more"/"Show less" is drawn iff the description is over 150 characters. |
| VideoPage.ToggleDescription | src/pages/Video.jsx:169 | The toggle negates the expanded flag and keeps the video and the error. |
| VideoPage.TagLine | src/pages/Video.jsx:179-183 | The shown tags, each behind `#`, joined by single spaces; `TagLineShape` spells it out. |
| VideoPage.TagLineDrawn | src/pages/Video.jsx:177 | The line is drawn iff the video has a `tags` array with at least one entry, blank or not. |
| Header.Initial | src/components/Header.jsx:14-16 | On mount the menu is closed and the box empty, with a dispatch of `""` pending; the invariant holds. Also lines 27-33. |
| Header.Settle | src/components/Header.jsx:48-67 | Closing resets hovering. The auto-close timer is armed iff the menu is open and not hovered. |
| Header.Logout | src/components/Header.jsx:69-82 | No user: nothing. Success: logged out. Failure: the user is kept. |
| Header.Step | src/components/Header.jsx:27-175 | Every event preserves the invariant: the pending dispatch holds the box text, or the store already does; a closed menu is not hovered; the timer is armed iff open and not hovered. Only the channel and upload items navigate, from the open menu of a logged-in user. |
| Header.Run | src/components/Header.jsx:27-175 | Any sequence of events preserves the invariant. |
| Header.AvatarToggles | src/components/Header.jsx:124 | The avatar toggles the menu. |
| Header.OutsideClickCloses | src/components/Header.jsx:35-46 | An outside mousedown closes the menu and clears hovering. Also lines 63-67. |
| Header.ItemsClose | src/components/Header.jsx:140-170 | Every item closes the menu. The channel and upload items navigate to `/createChannel` and `/upload`. |
| Header.HoverHoldsMenuOpen | src/components/Header.jsx:48-61 | While hovered, the timer is not pending and its event does nothing. Also line 135. |
| Header.LeaveThenAutoClose | src/components/Header.jsx:48-61 | Leaving re-arms the timer, which then closes the menu. Also line 136. |
| Header.LogoutOutcome | src/components/Header.jsx:69-82 | Logout from the menu logs out on success and keeps the user on failure. Also lines 164-170. |
| Header.TypingDoesNotDispatch | src/components/Header.jsx:27-33 | Keystrokes alone never write the store, and the box holds the last text typed. Also line 105. |
| Header.DebounceDispatchesLatest | src/components/Header.jsx:27-33 | After any burst of typing, the dispatch that fires carries the last text. |
| Header.AvatarInitial | src/components/Header.jsx:126 | At most one letter, empty iff the name is, and the first letter upper-cased. |
| Header.AvatarInitialIsPrefix | src/components/Header.jsx:126 | The letter is a prefix of the upper-cased name. |
| CategoriesBar.Initial | src/components/CategoriesBar.jsx:52-53 | No chips yet, and "All" selected. |
| CategoriesBar.Fetched | src/components/CategoriesBar.jsx:55-66 | On success the chips are "All" followed by the tags in order, one more than the tags. Failure changes nothing. |
| CategoriesBar.Click | src/components/CategoriesBar.jsx:68-71 | Selects the category and forwards exactly it iff a callback is present; the chips are unchanged. |
| CategoriesBar.ClickHighlights | src/components/CategoriesBar.jsx:69 | After a click the highlighted chips are exactly those with the clicked text. Also line 82. |
| CategoriesBar.AllStaysFirst | src/components/CategoriesBar.jsx:59 | Example, a case of `Click`: "All" stays the first chip after any click. Also line 69. |
| CategoriesBar.AllRequestsFullFeed | src/components/CategoriesBar.jsx:70 | Example, a case of `Click` and `HomePage.CategoryEndpoint`: clicking "All" makes the feed request `/video`. |
| UploadVideo.Redirect | src/pages/UplaodVideo.jsx:19-25 | `/login` without a user, `/createChannel` without a truthy channel, else no redirect. |
| UploadVideo.ChannelOwnerStays | src/pages/UplaodVideo.jsx:22 | A user with a non-empty channel id may stay. |
| UploadVideo.ComputedTags | src/pages/UplaodVideo.jsx:40 | At most two tags, each trimmed and non-empty. |
| UploadVideo.RequestOf | src/pages/UplaodVideo.jsx:42-47 | Trimmed title and description, the file, and the two raw tag inputs. |
| UploadVideo.Submit | src/pages/UplaodVideo.jsx:27-82 | An incomplete form returns early, still uploading and without a request. Otherwise the request is sent and uploading ends. Success resets every field and navigates home; failure shows the server's message or the default and clears progress. |
| UploadVideo.RawTagsSent | src/pages/UplaodVideo.jsx:40 | The raw inputs are sent, so a padded or empty tag goes out although the computed tags exclude it. Also lines 46-47. |
| UploadVideo.StuckAfterBlankTitle | src/pages/UplaodVideo.jsx:30-36 | A whitespace title passes `required`, is refused, and leaves the button disabled for good. Also line 167. |
| UploadVideo.StuckWithoutFile | src/pages/UplaodVideo.jsx:30-38 | Submitting with no file leaves the button disabled for good. Also line 167. |
| UploadVideo.SubmitFixed | src/pages/UplaodVideo.jsx:27-82 | The corrected handler: it never leaves `isUploading` raised, and matches the original whenever a request is sent. |
| UploadVideo.FixedAllowsRetry | src/pages/UplaodVideo.jsx:30-38 | With the fix, choosing a file after a refused submit lets the next submit send. |
| UploadVideo.ButtonLabel | src/pages/UplaodVideo.jsx:176-177 | "Uploading... n%" while uploading with a numeric progress, else "Submit". |
| UploadVideo.LabelResetsAfterRequest | src/pages/UplaodVideo.jsx:64-80 | After any sent request the button reads "Submit". Also lines 176-177. |
| UploadVideo.SuccessShownRed | src/pages/UplaodVideo.jsx:65 | The colour computed for this page's own success message is red. Also line 183; line 72 navigates away at once. |
| UploadVideo.FixedColours | src/pages/UplaodVideo.jsx:65 | With the colour keyed to the page's own text, success is green and failure red. Also line 183. |
| UploadVideo.Initial | src/pages/UplaodVideo.jsx:10-17 | Empty text fields, no file, no progress, not uploading, no status. |
| UploadVideo.FormSubmit | src/pages/UplaodVideo.jsx:87 | While uploading, or with an empty required title or description, nothing happens; otherwise the handler runs. Also lines 102, 117 and 167. |
| UploadVideo.FormSubmitFixed | src/pages/UplaodVideo.jsx:87 | The same browser gates in front of the corrected handler. Also lines 102, 117 and 167. |
| UploadVideo.Progress | src/pages/UplaodVideo.jsx:54-58 | A progress event stores the percentage and changes nothing else. |
| UploadVideo.StatusGreen | src/pages/UplaodVideo.jsx:183 | The status is green iff it starts with "Created". |
| SignUp.Redirect | src/pages/SignUp.jsx:20-24 | A logged-in user goes to `/`; nobody else is redirected. |
| SignUp.Edit | src/pages/SignUp.jsx:91-94 | Typing sets that field as typed, clears the error, and leaves the others. Also lines 112-115 and 133-136. |
| SignUp.Started | src/pages/SignUp.jsx:40 | While the request is in flight, the button is disabled. Also line 147. |
| SignUp.Submit | src/pages/SignUp.jsx:26-60 | A blank trimmed field ends it silently. Otherwise the trimmed values are posted. Success stores the user, empties the fields, clears the error and goes home. Failure shows the server's message or "Something went wrong". Loading ends either way. |
| SignUp.PayloadTrimmed | src/pages/SignUp.jsx:28-39 | Every posted value is trimmed and non-empty. |
| SignUp.SpacesPassButtonButSendNothing | src/pages/SignUp.jsx:28-33 | A username of spaces enables the button, yet nothing is sent and no error shows. Also lines 116 and 147. |
| SignUp.FailureShownUntilTyping | src/pages/SignUp.jsx:52 | A failure shows a non-empty error, and typing clears it. Also line 93. |
| SignUp.SuccessThenRedirect | src/pages/SignUp.jsx:20-24 | After a successful sign-up the page redirects home. Also line 44. |
| SignUp.Initial | src/pages/SignUp.jsx:9-13 | Empty fields, no error, not loading. |
| Login.EditEmail | src/pages/Login.jsx:85-88 | The email is stored trimmed, the error is cleared, and the fields stay trimmed. |
| Login.EditPassword | src/pages/Login.jsx:106-109 | The password is stored trimmed, the error is cleared, and the fields stay trimmed. |
| Login.SpacesTypeNothing | src/pages/Login.jsx:86 | Typing only whitespace leaves the field empty. Also line 107. |
| Login.Redirect | src/pages/Login.jsx:18-20 | A logged-in user goes to `/`. |
| Login.Started | src/pages/Login.jsx:35 | While the request is in flight, the button is disabled. Also line 120. |
| Login.Submit | src/pages/Login.jsx:22-56 | An empty field sets "Both email and password are required" and sends nothing. Otherwise the fields are posted. Success stores the user, clears everything and goes home. Failure shows the server's, else the error's, else the default message. Loading ends. |
| Login.CredentialsTrimmed | src/pages/Login.jsx:30-33 | The credentials sent are trimmed. Also lines 86 and 107. |
| Login.FailureMessagePriority | src/pages/Login.jsx:46-48 | The server's message wins, then the error's own, then "Something went wrong". |
| Login.EnabledNeverRequiredMessage | src/pages/Login.jsx:25-28 | Whenever the button is enabled, the submit sends a request. Also line 120. |
| Login.Initial | src/pages/Login.jsx:9-12 | Empty fields, no error, not loading; the fields are trimmed and the button disabled. |
| CreateChannel.Redirect | src/pages/CreateChannel.jsx:27-33 | `/login` without a user; `/channel/<channel>` when `isChannelCreated` is truthy; otherwise none. |
| CreateChannel.OwnerSentToChannel | src/pages/CreateChannel.jsx:30-31 | A user with a created channel goes to that channel's page; one without the flag stays. |
| CreateChannel.Body | src/pages/CreateChannel.jsx:42-46 | Name and description first, always. An avatar or banner entry is present iff that image was chosen. |
| CreateChannel.BodyFieldsDistinct | src/pages/CreateChannel.jsx:43-46 | Every field name occurs once; with no images there are just the two text fields. |
| CreateChannel.Started | src/pages/CreateChannel.jsx:39-40 | Uploading on and status cleared; nothing else changes. |
| CreateChannel.Progress | src/pages/CreateChannel.jsx:54-60 | A progress event stores the percentage and nothing else. |
| CreateChannel.Submit | src/pages/CreateChannel.jsx:35-85 | As written. Success on both requests resets the form with the green status, stores the refreshed user and goes to `/channel/<id>`. A rejection leaves the form as it was at that point, except `isUploading` lowered, and the error escapes. |
| CreateChannel.SubmitFixed | src/pages/CreateChannel.jsx:75-84 | With the catch completing: a failure shows the server's message or "Upload failed. Try again." and clears progress. Uploading ends and nothing escapes. |
| CreateChannel.FormSubmit | src/pages/CreateChannel.jsx:110 | While uploading, or with an empty required field, nothing happens. Otherwise the handler `Submit` runs: a body is sent and uploading ends. Also lines 128 and 189. |
| CreateChannel.ButtonLabel | src/pages/CreateChannel.jsx:196 | "Creating..." iff uploading, else "Create Channel". |
| CreateChannel.SubmitSettles | src/pages/CreateChannel.jsx:82-84 | After any submit the progress bar is hidden and the button reads "Create Channel". Also lines 172 and 196. |
| CreateChannel.CreatedShownGreen | src/pages/CreateChannel.jsx:62-74 | A created channel is announced in green, the user is refreshed, and the page moves to the channel. Also lines 200-206. |
| CreateChannel.FailureShowsNothing | src/pages/CreateChannel.jsx:75-84 | As written, a rejected create leaves no status line, keeps the old progress, and lets the error escape. Also lines 1-8, 40 and 200. |
| CreateChannel.FixedFailureShown | src/pages/CreateChannel.jsx:77-80 | With the fix, a rejected create always shows a message, red unless the server's text starts with "Created". Also lines 200-206. |
| CreateChannel.FixedAgreesOnFailureFields | src/pages/CreateChannel.jsx:75-84 | The fix differs from the original only in the status, progress and escape. |
| CreateChannel.Initial | src/pages/CreateChannel.jsx:15-22 | Empty name and description, no images, no progress, not uploading, no status. |
| CreateChannel.ProgressBarShown | src/pages/CreateChannel.jsx:172 | The bar shows iff uploading with a numeric progress. |
| CreateChannel.StatusGreen | src/pages/CreateChannel.jsx:203 | The status is green iff it starts with "Created". |

## Left out

- The HTTP client and its wire formats. Each request is an outcome parameter. Malformed success payloads are not modelled: a missing `res.data` or a missing `channel` field that would throw inside a `try`.
- Toasts and `console` logging. A failure that only toasts (a comment load, a comment post or delete, a view registration) changes nothing in the model.
- The `error` state of the comment list, which the component never sets.
- Rendering, CSS and the 300 ms fade-in timers of the channel page and thumbnails.
- Real timer durations (500 ms debounce, 3 s auto-close). Timers are events that fire whenever the environment chooses.
- DOM event ordering beyond the one composition stated in `YourChannel.DotsOfOpenMenuReopen`, and the exact DOM geometry of `contains`: each mousedown says whether it landed inside.
- Routing, the app shell, the side bar, thumbnails, loading and error pages, and the store set-up with its `localStorage` persistence.
- `formatDistanceToNow`, and `formatViews`, whose file is not part of this model.
- The browser's sanitising of `type="email"` inputs and its email-format validation. Only the `required` check on empty values is modelled.
- The redirect effect that follows `addUser` on the channel-creation page, which may navigate again to the user's channel.
- Duration.FormatDuration: natural seconds only; fractional and negative durations are left out.
- Text.ToLower: ASCII letters only; Unicode case mapping is left out. The same holds for `Text.ToUpper` in the avatar letter.
- Header.AvatarInitial: a stored user without `username` makes `username.toUpperCase()` throw during render; the model takes the name as a string. `charAt(0)` takes one UTF-16 unit, the model the first code point.
- VideoPage.ShownDescription: strings are sequences of code points, not UTF-16 units, so the 150-character cut counts code points.
- UploadVideo.Progress: the rounding of `loaded * 100 / total` is not modelled; the percentage is an input.
- CreateChannel.Progress: the same rounding is not modelled.
- YourChannel.ConfirmDelete: requires a loaded channel. The confirm button exists only on the rendered page, and the source would crash on `prev.videos` otherwise.
- YourChannel.OnUpdate: requires a loaded channel, for the same reason.
- YourChannel.MouseDown: the menu's node is taken to exist whenever the page shows a video with the open id. Only the owner can open a menu, so this is the owner's case.
- CreateChannel.Submit: upload-progress events during the request are separate `Progress` steps, not interleaved with the handler.
- HomePage.Filtered: a video without a `title` reads as `""` and is kept by an empty search; the source calls `video.title.toLowerCase()` unguarded, so such a video makes the page throw during render.
- YourChannel.Fetched: a failure response whose `data` is null makes `error.response?.data.message` throw inside the `catch`; the model treats it as no server message and shows the default.
- SignUp.Submit: the same null-`data` failure response is treated as no server message rather than an error thrown inside the `catch`.
- Login.Submit: the same null-`data` failure response is treated as no server message rather than an error thrown inside the `catch`.

## Findings

| source | as written | input that shows it | evidently intended | confidence | as-written member | corrected member |
|---|---|---|---|---|---|---|
| src/pages/UplaodVideo.jsx:30-38 | `isUploading` is set before the two early `return`s and never reset on them, so the submit button stays disabled | A title of one space with a description (passes `required`), or any form with no file chosen | Lower `isUploading` on the early returns so the user can correct the form and resubmit | not executed | UploadVideo.StuckAfterBlankTitle | UploadVideo.FixedAllowsRetry |
| src/pages/CreateChannel.jsx:75-84 | The `catch` calls `toast.error`, but `toast` is never imported (see the imports on lines 1-8), so it throws before the status and progress are set | Any rejected `POST /channel/create`, e.g. a server reply with message "Channel name taken" | Show the error message in the status line and clear the progress | not executed | CreateChannel.FailureShowsNothing | CreateChannel.FixedFailureShown |
| src/pages/UplaodVideo.jsx:183 | The status colour tests `startsWith("Created")`, copied from the channel page, so the colour computed for this page's success text (set on line 65) is red. Line 72 navigates home in the same continuation, so the page probably unmounts before that text is painted: the defect is latent while the navigation stays | A successful upload: status "Video Uploaded Successfully" | Green for the page's own success message | not executed | UploadVideo.SuccessShownRed | UploadVideo.FixedColours |
