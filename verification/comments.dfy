/**
 The comment list under a video: posting, the delete confirmation, in-place
 editing and the per-comment menu. Each request is an `Outcome` parameter;
 toasts are left out, so a failure that only toasts changes nothing here.
 */
module Comments {
  import opened Outcomes
  import opened Text
  import opened Lists
  import opened Records
  import opened Entities

  datatype State = State(
    comments: seq<Comment>,
    input: string,
    openMenuId: Option<string>,
    showConfirm: bool,
    target: Option<string>,
    editingId: Option<string>,
    editText: string)

  function Initial(): (s: State)
    ensures s.comments == [] && s.input == "" && s.editText == ""
    ensures s.openMenuId.None? && s.target.None? && s.editingId.None? && !s.showConfirm
  {
    State([], "", None, false, None, None, "")
  }

  /** The first fetch: `res.data.comments || []` on success; a failure only toasts. */
  function Loaded(s: State, outcome: Outcome<Option<seq<Comment>>>): (r: State)
    ensures outcome.Success? && outcome.value.Some? ==> r.comments == outcome.value.value
    ensures outcome.Success? && outcome.value.None? ==> r.comments == []
    ensures outcome.Failure? ==> r == s
    ensures r.input == s.input && r.editingId == s.editingId && r.openMenuId == s.openMenuId
  {
    match outcome
    case Success(Some(cs)) => s.(comments := cs)
    case Success(None) => s.(comments := [])
    case Failure(_) => s
  }

  /** Typing into the comment box. */
  function TypeComment(s: State, text: string): (r: State)
    ensures r.input == text && r.comments == s.comments
  {
    s.(input := text)
  }

  /** What `addComment` leaves behind: the state, where it navigated (if
      anywhere) and the text it posted (if it posted). */
  datatype Added = Added(state: State, navigate: Option<string>, posted: Option<string>)

  /** `addComment`: blank input does nothing at all, logged-out users are sent
      to `/login`, and otherwise the trimmed text is posted; the server's new
      comment goes on top and the box is cleared only on success. */
  function AddComment(s: State, user: Option<Record>, outcome: Outcome<Comment>): (r: Added)
    ensures IsBlank(s.input) ==> r == Added(s, None, None)
    ensures !IsBlank(s.input) && user.None? ==> r == Added(s, Some("/login"), None)
    ensures !IsBlank(s.input) && user.Some? ==> r.navigate.None? && r.posted == Some(Trim(s.input))
    ensures !IsBlank(s.input) && user.Some? && outcome.Success? ==>
              r.state == s.(comments := [outcome.value] + s.comments, input := "")
    ensures outcome.Failure? ==> r.state == s
  {
    var text := Trim(s.input);
    if text == "" then Added(s, None, None)
    else if user.None? then Added(s, Some("/login"), None)
    else
      match outcome
      case Success(c) => Added(s.(comments := [c] + s.comments, input := ""), None, Some(text))
      case Failure(_) => Added(s, None, Some(text))
  }

  /** "Delete" in a comment's menu: that comment becomes the target, the
      confirmation opens and the menu closes. */
  function DeleteClick(s: State, id: string): (r: State)
    ensures r.target == Some(id) && r.showConfirm && r.openMenuId.None?
    ensures r.comments == s.comments && r.editingId == s.editingId
  {
    s.(target := Some(id), showConfirm := true, openMenuId := None)
  }

  /** The backdrop or "Cancel" of the confirmation: hidden, target kept. */
  function DismissConfirm(s: State): (r: State)
    ensures !r.showConfirm && r.target == s.target && r.comments == s.comments
  {
    s.(showConfirm := false)
  }

  predicate NotTarget(target: Option<string>, c: Comment) {
    Some(c.id) != target
  }

  /** `confirmDelete`: the target's comments leave the list before the
      request, and the outcome is never consulted, so a failed delete does
      not bring them back; the dialog closes and the target is cleared. */
  function ConfirmDelete(s: State, outcome: Outcome<()>): (r: State)
    ensures IsSubsequence(r.comments, s.comments)
    ensures |r.comments| == CountIf(s.comments, c => NotTarget(s.target, c))
    ensures forall c :: c in r.comments <==> c in s.comments && Some(c.id) != s.target
    ensures !r.showConfirm && r.target.None?
    ensures r.input == s.input && r.editingId == s.editingId && r.editText == s.editText
  {
    var target := s.target;
    s.(comments := Filter(s.comments, c => NotTarget(target, c)), showConfirm := false, target := None)
  }

  /** After a delete no comment with the target's id is left. */
  lemma DeleteRemovesTarget(s: State, outcome: Outcome<()>, id: string)
    requires s.target == Some(id)
    ensures forall i :: 0 <= i < |ConfirmDelete(s, outcome).comments| ==>
              ConfirmDelete(s, outcome).comments[i].id != id
  {
    var r := ConfirmDelete(s, outcome).comments;
    forall i | 0 <= i < |r| ensures r[i].id != id {
      assert r[i] in r;
    }
  }

  /** A delete whose target is not in the list leaves the list as it was. */
  lemma DeleteAbsentKeepsList(s: State, outcome: Outcome<()>)
    requires forall i :: 0 <= i < |s.comments| ==> Some(s.comments[i].id) != s.target
    ensures ConfirmDelete(s, outcome).comments == s.comments
  {
    var target := s.target;
    FilterAll(s.comments, c => NotTarget(target, c));
  }

  /** Posting a comment with a fresh id and then deleting it restores the list. */
  lemma AddThenDelete(s: State, user: Option<Record>, c: Comment, outcome: Outcome<()>)
    requires !IsBlank(s.input) && user.Some?
    requires forall i :: 0 <= i < |s.comments| ==> s.comments[i].id != c.id
    ensures var added := AddComment(s, user, Success(c)).state;
            ConfirmDelete(DeleteClick(added, c.id), outcome).comments == s.comments
  {
    var added := AddComment(s, user, Success(c)).state;
    var target := Some(c.id);
    var xs := [c] + s.comments;
    assert xs[1..] == s.comments;
    FilterAll(s.comments, x => NotTarget(target, x));
    assert Filter(xs, x => NotTarget(target, x)) == Filter(s.comments, x => NotTarget(target, x));
  }

  /** "Edit" in a comment's menu: that comment's text goes into the edit box
      and the menu closes. */
  function EditClick(s: State, c: Comment): (r: State)
    ensures r.editingId == Some(c.id) && r.editText == c.text && r.openMenuId.None?
    ensures r.comments == s.comments
  {
    s.(editingId := Some(c.id), editText := c.text, openMenuId := None)
  }

  function TypeEdit(s: State, text: string): (r: State)
    ensures r.editText == text && r.editingId == s.editingId && r.comments == s.comments
  {
    s.(editText := text)
  }

  /** `handleCancelEdit`. */
  function CancelEdit(s: State): (r: State)
    ensures r.editingId.None? && r.editText == ""
    ensures r.comments == s.comments && r.input == s.input
  {
    s.(editingId := None, editText := "")
  }

  /** `handleSaveEdit(id)`: the edit text is sent as typed; on success every
      comment with that id is swapped for the server's copy and edit mode
      ends, on failure nothing changes. */
  function SaveEdit(s: State, id: string, outcome: Outcome<Comment>): (r: State)
    ensures outcome.Failure? ==> r == s
    ensures outcome.Success? ==>
              && |r.comments| == |s.comments|
              && (forall i :: 0 <= i < |s.comments| && s.comments[i].id == id ==> r.comments[i] == outcome.value)
              && (forall i :: 0 <= i < |s.comments| && s.comments[i].id != id ==> r.comments[i] == s.comments[i])
              && r.editingId.None? && r.editText == ""
  {
    match outcome
    case Success(c) => s.(comments := ReplaceWhere(s.comments, CommentId, id, c), editingId := None, editText := "")
    case Failure(_) => s
  }

  /** A saved comment that keeps its id leaves the ids, and so the order of the
      list, as they were. */
  lemma SaveKeepsIds(s: State, id: string, c: Comment)
    requires c.id == id
    ensures Keys(SaveEdit(s, id, Success(c)).comments, CommentId) == Keys(s.comments, CommentId)
  {
    ReplaceKeepsKeys(s.comments, CommentId, id, c);
  }

  /** Cancel after Edit returns the edit state to where it started. */
  lemma EditThenCancel(s: State, c: Comment)
    requires s.editingId.None? && s.editText == ""
    ensures CancelEdit(EditClick(s, c)) == s.(openMenuId := None)
  {
  }

  /** The kebab button opens that comment's menu; it does not toggle. */
  function MenuClick(s: State, id: string): (r: State)
    ensures r.openMenuId == Some(id)
    ensures r.comments == s.comments && r.editingId == s.editingId && r.showConfirm == s.showConfirm
  {
    s.(openMenuId := Some(id))
  }

  /** Clicking the same kebab twice leaves its menu open. */
  lemma MenuClickTwiceStaysOpen(s: State, id: string)
    ensures MenuClick(MenuClick(s, id), id).openMenuId == Some(id)
  {
  }

  /** A mousedown anywhere on the page. The open menu closes when its id is
      truthy, its comment is still mounted (so its node exists) and the
      click landed outside that node. */
  function MouseDown(s: State, inside: bool): (r: State)
    ensures r.openMenuId.None? <==>
              s.openMenuId.None? ||
              (Truthy(s.openMenuId) && s.openMenuId.value in Keys(s.comments, CommentId) && !inside)
    ensures r.openMenuId.Some? ==> r.openMenuId == s.openMenuId
    ensures r.(openMenuId := s.openMenuId) == s
  {
    if Truthy(s.openMenuId) && s.openMenuId.value in Keys(s.comments, CommentId) && !inside
    then s.(openMenuId := None)
    else s
  }

  /** A click inside the open menu never closes it. */
  lemma InsideClickKeepsMenu(s: State)
    ensures MouseDown(s, true) == s
  {
  }

  /** Whether the kebab is drawn for a comment: `user?._id === comment.user?._id`,
      where two `undefined`s are equal. */
  predicate MenuButtonShown(user: Option<Record>, c: Comment) {
    match (Get(user, "_id"), c.authorId)
    case (None, None) => true
    case (Some(Str(a)), Some(b)) => a == b
    case _ => false
  }

  /** A logged-in user whose `_id` is a string sees the kebab exactly on the
      comments they wrote. */
  lemma MenuButtonForAuthor(user: Record, uid: string, c: Comment)
    requires "_id" in user && user["_id"] == Str(uid)
    ensures MenuButtonShown(Some(user), c) <==> c.authorId == Some(uid)
  {
  }

  /** With nobody logged in, the kebab still shows on a comment whose author
      is missing, because both sides read `undefined`. */
  lemma LoggedOutSeesAuthorlessMenu(c: Comment)
    requires c.authorId.None?
    ensures MenuButtonShown(None, c)
  {
  }
}
