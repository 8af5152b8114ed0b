/**
 The header: the debounced search box that writes the `search` slice, and
 the account menu with its hover tracking, auto-close timer, outside-click
 close and logout. Timers are events: `DebounceFire` and `AutoCloseFire`
 are the moments their callbacks would run, and each is a no-op when no
 such timer is pending. The effects React runs after a render are folded
 into each step.
 */
module Header {
  import opened Outcomes
  import opened Text
  import opened Records
  import SearchSlice
  import UserSlice

  datatype State = State(
    open: bool,
    hovering: bool,
    localSearch: string,
    /** The text the pending debounce timer will dispatch, if one is pending. */
    pending: Option<string>,
    /** Whether the auto-close timer is pending. */
    timerArmed: bool,
    search: SearchSlice.State,
    user: UserSlice.State)

  datatype Event =
    | Keystroke(text: string)
    | DebounceFire
    | AvatarClick
    | MouseEnter
    | MouseLeave
    | MouseDown(inside: bool)
    | AutoCloseFire
    | WelcomeClick
    | ChannelClick
    | UploadClick
    | LogoutClick(outcome: Outcome<()>)

  /** What a step leaves: the state and where it navigated, if anywhere. */
  datatype Stepped = Stepped(state: State, navigate: Option<string>)

  /** What holds between events: the pending dispatch carries the current
      text, and without one the store already has it; a closed menu is not
      hovered; the auto-close timer runs exactly while the menu is open and
      not hovered. */
  predicate Inv(s: State) {
    && (s.pending.Some? ==> s.pending.value == s.localSearch)
    && (s.pending.None? ==> s.search.value == s.localSearch)
    && (!s.open ==> !s.hovering)
    && (s.timerArmed <==> s.open && !s.hovering)
  }

  /** Mounting: menu closed, empty box, and the first debounce already
      scheduled with `""`. */
  function Initial(search: SearchSlice.State, user: UserSlice.State): (s: State)
    ensures Inv(s)
    ensures !s.open && s.localSearch == "" && s.pending == Some("")
  {
    State(false, false, "", Some(""), false, search, user)
  }

  /** The menu effects after `open`/`hovering` change: closing resets
      `hovering`, and the auto-close timer is cleared and re-armed exactly
      when the menu is open and not hovered. */
  function Settle(s: State, open: bool, hovering: bool): (r: State)
    ensures r.open == open && r.hovering == (hovering && open)
    ensures r.timerArmed == (open && !(hovering && open))
    ensures r.localSearch == s.localSearch && r.pending == s.pending
    ensures r.search == s.search && r.user == s.user
  {
    var h := hovering && open;
    s.(open := open, hovering := h, timerArmed := open && !h)
  }

  predicate LoggedIn(s: State) {
    s.user.user.Some?
  }

  /** `handleLogout` with the user the menu was drawn for. */
  function Logout(user: UserSlice.State, outcome: Outcome<()>): (r: UserSlice.State)
    ensures user.user.None? ==> r == user
    ensures user.user.Some? && outcome.Success? ==> r.user.None?
    ensures outcome.Failure? ==> r == user
  {
    if user.user.None? then user
    else if outcome.Success? then UserSlice.Remove(user)
    else user
  }

  /** One event. The avatar and its menu exist only for a logged-in user, and
      the closed menu ignores the pointer (`pointer-events-none`), so hover and
      item clicks on it do nothing. */
  function Step(s: State, e: Event): (r: Stepped)
    ensures Inv(s) ==> Inv(r.state)
    ensures r.navigate.Some? ==> s.open && LoggedIn(s) && (e == ChannelClick || e == UploadClick)
  {
    match e
    case Keystroke(text) =>
      if text == s.localSearch then Stepped(s, None)
      else Stepped(s.(localSearch := text, pending := Some(text)), None)
    case DebounceFire =>
      if s.pending.Some? then Stepped(s.(search := SearchSlice.Set(s.search, s.pending), pending := None), None)
      else Stepped(s, None)
    case AvatarClick =>
      if LoggedIn(s) then Stepped(Settle(s, !s.open, s.hovering), None) else Stepped(s, None)
    case MouseEnter =>
      if s.open then Stepped(Settle(s, true, true), None) else Stepped(s, None)
    case MouseLeave =>
      if s.open then Stepped(Settle(s, true, false), None) else Stepped(s, None)
    case MouseDown(inside) =>
      if LoggedIn(s) && !inside then Stepped(Settle(s, false, s.hovering), None) else Stepped(s, None)
    case AutoCloseFire =>
      if s.timerArmed then Stepped(Settle(s, false, s.hovering), None) else Stepped(s, None)
    case WelcomeClick =>
      if s.open && LoggedIn(s) then Stepped(Settle(s, false, s.hovering), None) else Stepped(s, None)
    case ChannelClick =>
      if s.open && LoggedIn(s) then Stepped(Settle(s, false, s.hovering), Some("/createChannel")) else Stepped(s, None)
    case UploadClick =>
      if s.open && LoggedIn(s) then Stepped(Settle(s, false, s.hovering), Some("/upload")) else Stepped(s, None)
    case LogoutClick(outcome) =>
      if s.open && LoggedIn(s) then Stepped(Settle(s, false, s.hovering).(user := Logout(s.user, outcome)), None)
      else Stepped(s, None)
  }

  /** Events applied in order. */
  function Run(s: State, es: seq<Event>): (r: State)
    ensures Inv(s) ==> Inv(r)
    decreases |es|
  {
    if es == [] then s else Run(Step(s, es[0]).state, es[1..])
  }

  /** The avatar toggles the menu of a logged-in user. */
  lemma AvatarToggles(s: State)
    requires Inv(s) && LoggedIn(s)
    ensures Step(s, AvatarClick).state.open == !s.open
    ensures Step(Step(s, AvatarClick).state, AvatarClick).state.open == s.open
  {
  }

  /** A mousedown outside the menu closes it, and the closed menu is not hovered. */
  lemma OutsideClickCloses(s: State)
    requires Inv(s) && LoggedIn(s)
    ensures !Step(s, MouseDown(false)).state.open && !Step(s, MouseDown(false)).state.hovering
  {
  }

  /** Every menu item closes the menu. */
  lemma ItemsClose(s: State, outcome: Outcome<()>)
    requires Inv(s) && LoggedIn(s) && s.open
    ensures !Step(s, WelcomeClick).state.open
    ensures Step(s, ChannelClick) == Stepped(Step(s, WelcomeClick).state, Some("/createChannel"))
    ensures Step(s, UploadClick) == Stepped(Step(s, WelcomeClick).state, Some("/upload"))
    ensures !Step(s, LogoutClick(outcome)).state.open
  {
  }

  /** While the pointer is on the open menu it stays open: the auto-close
      timer is not pending, so its event does nothing. */
  lemma HoverHoldsMenuOpen(s: State)
    requires Inv(s) && s.open
    ensures var h := Step(s, MouseEnter).state;
            h.open && !h.timerArmed && Step(h, AutoCloseFire).state == h
  {
  }

  /** Leaving the open menu re-arms the auto-close, which then closes it. */
  lemma LeaveThenAutoClose(s: State)
    requires Inv(s) && s.open
    ensures var l := Step(s, MouseLeave).state;
            l.timerArmed && !Step(l, AutoCloseFire).state.open
  {
  }

  /** A successful logout from the menu logs the user out; a failed one keeps them. */
  lemma LogoutOutcome(s: State, e: RequestError)
    requires Inv(s) && LoggedIn(s) && s.open
    ensures Step(s, LogoutClick(Success(()))).state.user.user.None?
    ensures Step(s, LogoutClick(Failure(e))).state.user == s.user
  {
  }

  function Keystrokes(ts: seq<string>): (es: seq<Event>)
    ensures |es| == |ts| && forall i :: 0 <= i < |ts| ==> es[i] == Keystroke(ts[i])
  {
    seq(|ts|, i requires 0 <= i < |ts| => Keystroke(ts[i]))
  }

  /** Typing never writes the store; the box holds the last text typed. */
  lemma {:induction false} TypingDoesNotDispatch(s: State, ts: seq<string>)
    requires Inv(s)
    ensures Run(s, Keystrokes(ts)).search == s.search
    ensures Run(s, Keystrokes(ts)).(search := s.search, localSearch := s.localSearch, pending := s.pending) == s
    ensures |ts| > 0 ==> Run(s, Keystrokes(ts)).localSearch == ts[|ts| - 1]
    decreases |ts|
  {
    if ts != [] {
      var es := Keystrokes(ts);
      assert es[1..] == Keystrokes(ts[1..]);
      var s1 := Step(s, es[0]).state;
      TypingDoesNotDispatch(s1, ts[1..]);
      if |ts| > 1 {
        assert ts[1..][|ts[1..]| - 1] == ts[|ts| - 1];
      } else {
        assert Keystrokes(ts[1..]) == [];
      }
    }
  }

  /** The debounce: after any burst of typing, the dispatch that follows
      writes the last text typed, whatever came before it. */
  lemma DebounceDispatchesLatest(s: State, ts: seq<string>)
    requires Inv(s) && |ts| > 0
    ensures Step(Run(s, Keystrokes(ts)), DebounceFire).state.search.value == ts[|ts| - 1]
  {
    TypingDoesNotDispatch(s, ts);
  }

  /** `username.toUpperCase().charAt(0) || ""`: the first letter, upper-cased. */
  function AvatarInitial(username: string): (r: string)
    ensures |r| <= 1
    ensures r == "" <==> username == ""
    ensures r != "" ==> r[0] == UpperChar(username[0])
  {
    if username == "" then "" else [UpperChar(username[0])]
  }

  /** The letter is the first character of the upper-cased name. */
  lemma AvatarInitialIsPrefix(username: string)
    ensures AvatarInitial(username) <= ToUpper(username)
  {
  }
}
