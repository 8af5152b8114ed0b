/**
 The channel page: the fetched channel, the per-video dropdown with its
 outside-click and timed close, delete after confirmation, and the
 in-place replacement of an edited video.
 */
module YourChannel {
  import opened Outcomes
  import opened Lists
  import opened Records
  import opened Entities

  datatype State = State(
    channel: Option<Channel>,
    error: Option<string>,
    openDropdown: Option<string>,
    target: Option<string>,
    showConfirm: bool,
    showEdit: bool,
    editing: Option<Video>)

  function Initial(): (s: State)
    ensures s.channel.None? && s.error.None? && s.openDropdown.None? && s.target.None?
    ensures !s.showConfirm && !s.showEdit && s.editing.None?
  {
    State(None, None, None, None, false, false, None)
  }

  /** The channel fetch: `res.data.channel` on success (possibly missing); on
      failure the server's message, else "Something went wrong". */
  function Fetched(s: State, outcome: Outcome<Option<Channel>>): (r: State)
    ensures outcome.Success? ==> r == s.(channel := outcome.value)
    ensures outcome.Failure? ==> r.channel == s.channel && r.error.Some? && r.error.value != ""
    ensures outcome.Failure? && Truthy(outcome.error.serverMessage) ==>
              r.error == outcome.error.serverMessage
    ensures outcome.Failure? && !Truthy(outcome.error.serverMessage) ==> r.error == Some("Something went wrong")
    ensures outcome.Failure? ==>
              r == s.(error := Some(FirstTruthy([outcome.error.serverMessage], "Something went wrong")))
  {
    match outcome
    case Success(c) => s.(channel := c)
    case Failure(e) => s.(error := Some(FirstTruthy([e.serverMessage], "Something went wrong")))
  }

  /** What the page renders. */
  datatype View = ErrorView(message: string) | LoadingView | PageView(channel: Channel)

  /** `if (error) …; if (!channel) …`: a truthy error wins over everything. */
  function Render(s: State): (v: View)
    ensures Truthy(s.error) ==> v == ErrorView(s.error.value)
    ensures !Truthy(s.error) && s.channel.None? ==> v == LoadingView
    ensures !Truthy(s.error) && s.channel.Some? ==> v == PageView(s.channel.value)
  {
    if Truthy(s.error) then ErrorView(s.error.value)
    else if s.channel.None? then LoadingView
    else PageView(s.channel.value)
  }

  /** An error shows even when a channel has also arrived. */
  lemma ErrorBeforeLoading(s: State, c: Option<Channel>, e: RequestError)
    ensures Render(Fetched(Fetched(s, Failure(e)), Success(c))).ErrorView?
  {
  }

  /** `currentUser?.channel === channel?._id`: the dropdowns are drawn only
      for the owner. */
  predicate IsOwner(user: Option<Record>, c: Channel) {
    Get(user, "channel") == Some(Str(c.id))
  }

  /** A logged-out visitor, or a user whose channel field is not this id,
      never sees the controls. */
  lemma OwnerNeedsMatchingChannel(user: Option<Record>, c: Channel)
    ensures IsOwner(user, c) <==> user.Some? && "channel" in user.value && user.value["channel"] == Str(c.id)
  {
  }

  /** The three-dots button: clicking the open video's button closes its
      menu, any other video's button opens that one instead. */
  function DropdownClick(s: State, videoId: string): (r: State)
    ensures s.openDropdown == Some(videoId) ==> r.openDropdown.None?
    ensures s.openDropdown != Some(videoId) ==> r.openDropdown == Some(videoId)
    ensures r.(openDropdown := s.openDropdown) == s
  {
    s.(openDropdown := if s.openDropdown == Some(videoId) then None else Some(videoId))
  }

  /** Two clicks on the same button from a closed menu close it again. */
  lemma DropdownClickTwice(s: State, videoId: string)
    requires s.openDropdown.None?
    ensures DropdownClick(DropdownClick(s, videoId), videoId) == s
  {
  }

  /** The three-dots button lies outside the open menu's node, so in a
      browser a click on it is preceded by a mousedown that closes the menu;
      the click then finds no menu open and opens it again. Clicking the dots
      of the open menu therefore leaves it open. */
  lemma DotsOfOpenMenuReopen(s: State, videoId: string)
    requires s.openDropdown == Some(videoId) && videoId != "" && MenuMounted(s)
    ensures DropdownClick(MouseDown(s, false), videoId).openDropdown == Some(videoId)
  {
  }

  /** "Edit": the dialog opens on that video and the menu closes. */
  function EditItem(s: State, v: Video): (r: State)
    ensures r.editing == Some(v) && r.showEdit && r.openDropdown.None?
    ensures r.channel == s.channel && r.showConfirm == s.showConfirm
  {
    s.(editing := Some(v), showEdit := true, openDropdown := None)
  }

  /** "Delete": the confirmation opens on that id; the menu stays open. */
  function DeleteItem(s: State, videoId: string): (r: State)
    ensures r.target == Some(videoId) && r.showConfirm
    ensures r.openDropdown == s.openDropdown && r.channel == s.channel
  {
    s.(target := Some(videoId), showConfirm := true)
  }

  /** The outside-click and timed close are active exactly while a menu id is
      set (the effects test `openDropdown`'s truthiness). */
  predicate DropdownArmed(s: State) {
    Truthy(s.openDropdown)
  }

  /** The open menu's node is mounted: the page is shown and one of its
      videos carries the open id. */
  predicate MenuMounted(s: State) {
    Render(s).PageView? && s.openDropdown.Some?
    && s.openDropdown.value in Keys(s.channel.value.videos, VideoId)
  }

  /** A mousedown on the page: closes the menu when the listener is armed,
      the menu's node exists and the click landed outside it. */
  function MouseDown(s: State, inside: bool): (r: State)
    ensures r.openDropdown.None? <==> s.openDropdown.None? || (DropdownArmed(s) && MenuMounted(s) && !inside)
    ensures r.openDropdown.Some? ==> r.openDropdown == s.openDropdown
    ensures r.(openDropdown := s.openDropdown) == s
  {
    if DropdownArmed(s) && MenuMounted(s) && !inside then s.(openDropdown := None) else s
  }

  /** The 3-second timer: it exists only while the menu is open, and firing
      closes the menu and nothing else. */
  function TimerFire(s: State): (r: State)
    ensures DropdownArmed(s) ==> r == s.(openDropdown := None)
    ensures !DropdownArmed(s) ==> r == s
    ensures !DropdownArmed(r)
  {
    if DropdownArmed(s) then s.(openDropdown := None) else s
  }

  /** The confirmation's backdrop and "Cancel". */
  function DismissConfirm(s: State): (r: State)
    ensures !r.showConfirm && r.target == s.target && r.channel == s.channel
  {
    s.(showConfirm := false)
  }

  predicate NotTarget(target: Option<string>, v: Video) {
    Some(v.id) != target
  }

  /** `confirmDelete`: the request goes first and the video leaves the list
      only once it succeeds; either way the dialog closes and the target is
      cleared. The button exists only on the rendered page, so a channel is
      loaded. */
  function ConfirmDelete(s: State, outcome: Outcome<()>): (r: State)
    requires s.channel.Some?
    ensures r.channel.Some?
    ensures outcome.Failure? ==> r.channel == s.channel
    ensures outcome.Success? ==>
              && r.channel.value == s.channel.value.(videos := r.channel.value.videos)
              && IsSubsequence(r.channel.value.videos, s.channel.value.videos)
              && |r.channel.value.videos| == CountIf(s.channel.value.videos, v => NotTarget(s.target, v))
              && (forall v :: v in r.channel.value.videos <==> v in s.channel.value.videos && Some(v.id) != s.target)
    ensures !r.showConfirm && r.target.None?
    ensures r.openDropdown == s.openDropdown && r.editing == s.editing
  {
    var target := s.target;
    var c := s.channel.value;
    var channel :=
      if outcome.Success? then Some(c.(videos := Filter(c.videos, v => NotTarget(target, v))))
      else s.channel;
    s.(channel := channel, showConfirm := false, target := None)
  }

  /** `onUpdate(updated)`: every video with the updated id is swapped for it,
      the other videos and the channel's own fields stay, and the dialog
      closes. The dialog exists only on the rendered page. */
  function OnUpdate(s: State, updated: Video): (r: State)
    requires s.channel.Some?
    ensures r.channel.Some?
    ensures r.channel.value.id == s.channel.value.id
    ensures r.channel.value.name == s.channel.value.name
    ensures r.channel.value.description == s.channel.value.description
    ensures |r.channel.value.videos| == |s.channel.value.videos|
    ensures forall i :: 0 <= i < |s.channel.value.videos| ==>
              r.channel.value.videos[i] ==
                (if s.channel.value.videos[i].id == updated.id then updated else s.channel.value.videos[i])
    ensures !r.showEdit && r.editing == s.editing && r.openDropdown == s.openDropdown
  {
    var c := s.channel.value;
    s.(channel := Some(c.(videos := ReplaceWhere(c.videos, VideoId, updated.id, updated))), showEdit := false)
  }

  /** An edit never reorders, adds or drops videos: the id sequence is unchanged. */
  lemma UpdateKeepsOrder(s: State, updated: Video)
    requires s.channel.Some?
    ensures Keys(OnUpdate(s, updated).channel.value.videos, VideoId) == Keys(s.channel.value.videos, VideoId)
  {
    ReplaceKeepsKeys(s.channel.value.videos, VideoId, updated.id, updated);
  }

  /** A failed delete followed by a successful retry removes the video once. */
  lemma RetryAfterFailedDelete(s: State, id: string, e: RequestError)
    requires s.channel.Some?
    ensures var failed := ConfirmDelete(DeleteItem(s, id), Failure(e));
            failed.channel == s.channel
            && ConfirmDelete(DeleteItem(failed, id), Success(())) == ConfirmDelete(DeleteItem(s, id), Success(()))
  {
  }

  /** The edit dialog's own close. */
  function CloseEdit(s: State): (r: State)
    ensures !r.showEdit && r.channel == s.channel && r.editing == s.editing
  {
    s.(showEdit := false)
  }
}
