/** The session state of `StickyNoteChat` as a value, and each of its
    callbacks as a function from the state before to the state after.

    The class in module StickyChat holds this state in fields and is
    proved to perform exactly these transitions; the lemmas here state
    what the transitions guarantee, alone and over any sequence of user
    actions. */
module ChatSession {
  import opened PyText

  /** One line of the chat history: the text shown ("name: message") and
      the colour slot it was drawn with. */
  type Line = (string, int)

  /** One answer of the "Change User Name" dialog: whether OK was pressed,
      and the text in the input field. */
  type Answer = (bool, string)

  const DefaultUsers: seq<string> := ["User 1", "User 2"]
  const UserColors: seq<string> := ["#ADD8E6", "#FFD700"]
  const Separator: string := ": "
  const DisableLabel: string := "Disable Always On Top"
  const EnableLabel: string := "Enable Always On Top"

  datatype Session = Session(
    users: seq<string>,
    colors: seq<string>,
    current: int,
    alwaysOnTop: bool,
    history: seq<Line>)

  /** The keys the event filter tells apart. */
  datatype Key = Return | Enter | Tab | OtherKey(code: int)

  /** An event delivered to the message entry's filter. */
  datatype Event = KeyPress(key: Key) | OtherEvent

  predicate IsSlot(i: int)
  {
    i == 0 || i == 1
  }

  /** What every reachable session satisfies: two participants, the
      active index and every line's colour slot name one of them, and the
      colours are the fixed pair. */
  ghost predicate Valid(s: Session)
  {
    && |s.users| == 2
    && s.colors == UserColors
    && IsSlot(s.current)
    && forall k :: 0 <= k < |s.history| ==> IsSlot(s.history[k].1)
  }

  /** The state `__init__` builds. */
  function Initial(): (s: Session)
    ensures Valid(s)
    ensures s.history == [] && s.current == 0 && s.alwaysOnTop
  {
    Session(DefaultUsers, UserColors, 0, true, [])
  }

  /** The history line `add_message` formats for `name` saying `message`,
      without the HTML wrapper. */
  function FormatLine(name: string, message: string): (line: string)
    ensures |line| == |name| + |Separator| + |message|
    ensures line[..|name|] == name && line[|name| + |Separator|..] == message
    ensures line[|name|..|name| + |Separator|] == Separator
  {
    name + Separator + message
  }

  /** `add_message` on entry text `entry`: the new session and the entry
      text afterwards. Whitespace-only text changes nothing; any other
      text adds one line, attributed by name and colour slot to the active
      participant at this moment, and empties the entry. */
  function AddMessage(s: Session, entry: string): (r: (Session, string))
    requires Valid(s)
    ensures Valid(r.0)
    ensures AllSpace(entry) ==> r == (s, entry)
    ensures !AllSpace(entry) ==>
      && r.1 == ""
      && r.0 == s.(history := s.history + [(FormatLine(s.users[s.current], Strip(entry)), s.current)])
  {
    var message := Strip(entry);
    if message != "" then
      (s.(history := s.history + [(FormatLine(s.users[s.current], message), s.current)]), "")
    else
      (s, entry)
  }

  /** `change_turn`: the other participant becomes the active one; nothing
      else changes. */
  function ChangeTurn(s: Session): (r: Session)
    requires Valid(s)
    ensures Valid(r)
    ensures r.current != s.current
    ensures r == s.(current := r.current)
  {
    s.(current := 1 - s.current)
  }

  /** `clear_messages`: the history is emptied; nothing else changes. */
  function ClearMessages(s: Session): (r: Session)
    requires Valid(s)
    ensures Valid(r)
    ensures |r.history| == 0
    ensures r == s.(history := r.history)
  {
    s.(history := [])
  }

  /** The dialog answer is taken: OK was pressed and the text is not
      whitespace only. */
  predicate Accepted(a: Answer)
  {
    a.0 && Strip(a.1) != ""
  }

  /** The name slot `i` holds after its dialog: the typed text, unstripped,
      when the answer is accepted, and the old name otherwise. */
  function RenamedSlot(name: string, a: Answer): (r: string)
    ensures r == (if a.0 && !AllSpace(a.1) then a.1 else name)
  {
    if Accepted(a) then a.1 else name
  }

  /** The participant names after one dialog per slot. */
  function RenamedUsers(users: seq<string>, answers: seq<Answer>): (r: seq<string>)
    requires |answers| == |users|
    ensures |r| == |users|
    ensures forall i :: 0 <= i < |r| ==> r[i] == RenamedSlot(users[i], answers[i])
  {
    seq(|users|, i requires 0 <= i < |users| => RenamedSlot(users[i], answers[i]))
  }

  /** `change_user_names` with `answers[i]` the answer to the dialog for
      slot `i`: only the names change, and each one only when its answer
      is accepted. */
  function ChangeUserNames(s: Session, answers: seq<Answer>): (r: Session)
    requires Valid(s) && |answers| == |s.users|
    ensures Valid(r)
    ensures r == s.(users := r.users)
    ensures forall i :: 0 <= i < 2 ==>
      r.users[i] == (if answers[i].0 && !AllSpace(answers[i].1) then answers[i].1 else s.users[i])
  {
    s.(users := RenamedUsers(s.users, answers))
  }

  /** The text of the "Always On Top" menu action for a flag value. */
  function MenuLabel(alwaysOnTop: bool): (caption: string)
    ensures caption == DisableLabel <==> alwaysOnTop
    ensures caption == EnableLabel <==> !alwaysOnTop
  {
    if alwaysOnTop then DisableLabel else EnableLabel
  }

  /** `toggle_always_on_top`: the flag is negated and the menu label is
      set to match the new flag; nothing else changes. */
  function ToggleAlwaysOnTop(s: Session): (r: (Session, string))
    requires Valid(s)
    ensures Valid(r.0)
    ensures r.0.alwaysOnTop != s.alwaysOnTop
    ensures r.0 == s.(alwaysOnTop := r.0.alwaysOnTop)
    ensures r.1 == MenuLabel(r.0.alwaysOnTop)
  {
    var t := s.(alwaysOnTop := !s.alwaysOnTop);
    (t, MenuLabel(t.alwaysOnTop))
  }

  /** The keys the filter consumes. */
  predicate Handled(ev: Event)
  {
    ev.KeyPress? && ev.key in {Return, Enter, Tab}
  }

  /** `eventFilter` on the message entry: the new session, the entry text
      afterwards, and whether the event was consumed. Return and Enter
      send the entry, Tab changes the turn, and every other event is
      passed on untouched. */
  function EventFilter(s: Session, ev: Event, entry: string): (r: (Session, string, bool))
    requires Valid(s)
    ensures Valid(r.0)
    ensures r.2 <==> Handled(ev)
    ensures ev == KeyPress(Return) || ev == KeyPress(Enter) ==> (r.0, r.1) == AddMessage(s, entry)
    ensures ev == KeyPress(Tab) ==> r.0 == ChangeTurn(s) && r.1 == entry
    ensures !Handled(ev) ==> r.0 == s && r.1 == entry
  {
    match ev
    case KeyPress(Return) | KeyPress(Enter) =>
      var (t, e) := AddMessage(s, entry);
      (t, e, true)
    case KeyPress(Tab) =>
      (ChangeTurn(s), entry, true)
    case _ =>
      (s, entry, false)
  }

  /** A user action: one callback of the window, with the input it reads. */
  datatype Action =
    | Send(entry: string)
    | Turn
    | Clear
    | Rename(answers: seq<Answer>)
    | Toggle
    | Filter(ev: Event, text: string)

  /** Each rename action carries one answer per participant slot. */
  predicate WellFormed(acts: seq<Action>)
  {
    forall k :: 0 <= k < |acts| ==> (acts[k].Rename? ==> |acts[k].answers| == 2)
  }

  /** The session after one action. */
  function Step(s: Session, a: Action): (r: Session)
    requires Valid(s)
    requires a.Rename? ==> |a.answers| == 2
    ensures Valid(r)
    ensures !a.Clear? ==> s.history <= r.history
  {
    match a
    case Send(entry) => AddMessage(s, entry).0
    case Turn => ChangeTurn(s)
    case Clear => ClearMessages(s)
    case Rename(answers) => ChangeUserNames(s, answers)
    case Toggle => ToggleAlwaysOnTop(s).0
    case Filter(ev, text) => EventFilter(s, ev, text).0
  }

  /** The session after a sequence of actions, in order. Every session
      reached from a valid one, in particular from `Initial()`, is valid:
      two users, the fixed colours, the index and every line's slot in
      {0,1}. */
  function Run(s: Session, acts: seq<Action>): (r: Session)
    requires Valid(s) && WellFormed(acts)
    ensures Valid(r)
    ensures r.colors == s.colors
    decreases |acts|
  {
    if acts == [] then s
    else
      var t := Step(s, acts[0]);
      assert WellFormed(acts[1..]) by {
        forall k | 0 <= k < |acts| - 1 ensures acts[1..][k].Rename? ==> |acts[1..][k].answers| == 2 {
          assert acts[1..][k] == acts[k + 1];
        }
      }
      Run(t, acts[1..])
  }

  /** The history is append-only: over any actions without a clear, every
      earlier line stays where it was with the same text and colour slot
      (a rename in between does not relabel it), and the colours never
      change. */
  lemma {:induction false} RunAppendOnly(s: Session, acts: seq<Action>)
    requires Valid(s) && WellFormed(acts)
    requires forall k :: 0 <= k < |acts| ==> !acts[k].Clear?
    ensures s.history <= Run(s, acts).history
    ensures Run(s, acts).colors == s.colors
    decreases |acts|
  {
    if acts != [] {
      var t := Step(s, acts[0]);
      assert WellFormed(acts[1..]) by {
        forall k | 0 <= k < |acts| - 1 ensures acts[1..][k].Rename? ==> |acts[1..][k].answers| == 2 {
          assert acts[1..][k] == acts[k + 1];
        }
      }
      assert forall k :: 0 <= k < |acts| - 1 ==> acts[1..][k] == acts[k + 1];
      RunAppendOnly(t, acts[1..]);
    }
  }

  /** Changing the turn twice gives back the session. */
  lemma ChangeTurnTwice(s: Session)
    requires Valid(s)
    ensures ChangeTurn(ChangeTurn(s)) == s
  {
  }

  /** Toggling twice gives back the session and the label it started with. */
  lemma ToggleTwice(s: Session)
    requires Valid(s)
    ensures ToggleAlwaysOnTop(ToggleAlwaysOnTop(s).0).0 == s
    ensures ToggleAlwaysOnTop(ToggleAlwaysOnTop(s).0).1 == MenuLabel(s.alwaysOnTop)
  {
  }

  /** An accepted message keeps its text: the line ends with exactly the
      stripped entry, after the sender's name and the separator. */
  lemma AddMessageLine(s: Session, entry: string)
    requires Valid(s) && !AllSpace(entry)
    ensures var r := AddMessage(s, entry).0;
      && |r.history| == |s.history| + 1
      && var line := r.history[|s.history|];
      && line.1 == s.current
      && line.0[..|s.users[s.current]|] == s.users[s.current]
      && line.0[|s.users[s.current]| + |Separator|..] == Strip(entry)
      && Trimmed(line.0[|s.users[s.current]| + |Separator|..])
  {
  }

  /** Renaming neither touches the history nor moves the turn. */
  lemma RenameKeepsHistory(s: Session, answers: seq<Answer>)
    requires Valid(s) && |answers| == 2
    ensures ChangeUserNames(s, answers).history == s.history
    ensures ChangeUserNames(s, answers).current == s.current
  {
  }

  /** The same entry sent again after it was accepted would change
      nothing, because the entry is then empty. */
  lemma SendTwiceAddsOnce(s: Session, entry: string)
    requires Valid(s) && !AllSpace(entry)
    ensures var (t, e) := AddMessage(s, entry);
      AddMessage(t, e) == (t, "")
  {
    var (t, e) := AddMessage(s, entry);
    assert e == "";
  }

  /** A two-message conversation, for any two messages `first` and
      `second` and any new name `name` that are non-empty and carry no
      surrounding whitespace: two messages, a rename of slot 1, a clear.
      The code writes the sender's name into each line, so after slot 1
      is renamed the second line still carries the name "User 2". */
  lemma Walkthrough(first: string, second: string, name: string)
    requires first != [] && Trimmed(first)
    requires second != [] && Trimmed(second)
    requires name != [] && Trimmed(name)
    ensures var s0 := Initial();
      var s1 := AddMessage(s0, first).0;
      var s2 := ChangeTurn(s1);
      var s3 := AddMessage(s2, second).0;
      var s4 := ChangeUserNames(s3, [(false, ""), (true, name)]);
      && s1.history == [(FormatLine("User 1", first), 0)]
      && s2.current == 1
      && s3.history == [(FormatLine("User 1", first), 0), (FormatLine("User 2", second), 1)]
      && s4.users == ["User 1", name]
      && s4.history == s3.history
      && ClearMessages(s4).history == []
  {
    StripTrimmed(first);
    StripTrimmed(second);
    StripTrimmed(name);
    var answers := [(false, ""), (true, name)];
    var s3 := AddMessage(ChangeTurn(AddMessage(Initial(), first).0), second).0;
    assert RenamedSlot("User 1", answers[0]) == "User 1";
    assert RenamedSlot("User 2", answers[1]) == name;
    assert ChangeUserNames(s3, answers).users == ["User 1", name];
  }

  /** The two lines of that conversation for the words "hi" and "hello". */
  lemma WalkthroughLines()
    ensures FormatLine("User 1", "hi") == "User 1: hi"
    ensures FormatLine("User 2", "hello") == "User 2: hello"
  {
  }
}
