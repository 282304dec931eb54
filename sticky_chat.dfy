/** The `StickyNoteChat` window's state and callbacks, with the widgets
    replaced by what the callbacks read from them and write to them: the
    chat history is a sequence of lines, the text of the message entry is
    passed in and handed back, and each rename dialog is an answer passed
    in. */
module StickyChat {
  import opened PyText
  import CS = ChatSession

  class StickyNoteChat {
    var users: seq<string>
    var colors: seq<string>
    var current: int
    var alwaysOnTop: bool
    var history: seq<CS.Line>

    /** The session these fields hold. */
    function State(): CS.Session
      reads this
    {
      CS.Session(users, colors, current, alwaysOnTop, history)
    }

    ghost predicate Valid()
      reads this
    {
      CS.Valid(State())
    }

    /** `__init__`: the default names, the first participant active, the
        fixed colours, pinned on top, no history. */
    constructor ()
      ensures Valid() && State() == CS.Initial()
      ensures users == ["User 1", "User 2"] && current == 0
      ensures colors == ["#ADD8E6", "#FFD700"] && alwaysOnTop && history == []
    {
      users := ["User 1", "User 2"];
      current := 0;
      colors := ["#ADD8E6", "#FFD700"];
      alwaysOnTop := true;
      history := [];
    }

    /** `add_message` with `entry` the text of the message entry; `after`
        is the entry's text when the callback returns. */
    method AddMessage(entry: string) returns (after: string)
      requires Valid()
      modifies this
      ensures Valid()
      ensures (State(), after) == CS.AddMessage(old(State()), entry)
      ensures users == old(users) && current == old(current)
      ensures colors == old(colors) && alwaysOnTop == old(alwaysOnTop)
      ensures old(history) <= history
    {
      var message := Strip(entry);
      after := entry;
      if message != "" {
        history := history + [(users[current] + ": " + message, current)];
        after := "";
      }
    }

    /** `change_turn`: the other participant becomes the active one. */
    method ChangeTurn()
      requires Valid()
      modifies this
      ensures Valid()
      ensures State() == CS.ChangeTurn(old(State()))
      ensures current == 1 - old(current)
      ensures users == old(users) && colors == old(colors)
      ensures alwaysOnTop == old(alwaysOnTop) && history == old(history)
    {
      current := 1 - current;
    }

    /** `clear_messages`: the history is emptied. */
    method ClearMessages()
      requires Valid()
      modifies this
      ensures Valid()
      ensures State() == CS.ClearMessages(old(State()))
      ensures history == []
      ensures users == old(users) && colors == old(colors)
      ensures current == old(current) && alwaysOnTop == old(alwaysOnTop)
    {
      history := [];
    }

    /** `change_user_names` with `answers[i]` the answer to the dialog for
        slot `i`, asked in slot order. */
    method ChangeUserNames(answers: seq<CS.Answer>)
      requires Valid() && |answers| == |users|
      modifies this
      ensures Valid()
      ensures State() == CS.ChangeUserNames(old(State()), answers)
      ensures |users| == 2
      ensures forall i :: 0 <= i < 2 ==>
        users[i] == (if CS.Accepted(answers[i]) then answers[i].1 else old(users)[i])
      ensures colors == old(colors) && current == old(current)
      ensures alwaysOnTop == old(alwaysOnTop) && history == old(history)
    {
      for i := 0 to |users|
        invariant |users| == |old(users)|
        invariant forall j :: 0 <= j < i ==> users[j] == CS.RenamedSlot(old(users)[j], answers[j])
        invariant forall j :: i <= j < |users| ==> users[j] == old(users)[j]
        invariant colors == old(colors) && current == old(current)
        invariant alwaysOnTop == old(alwaysOnTop) && history == old(history)
      {
        var (ok, newName) := answers[i];
        if ok && Strip(newName) != "" {
          users := users[i := newName];
        }
        assert users[i] == CS.RenamedSlot(old(users)[i], answers[i]);
      }
      assert users == CS.RenamedUsers(old(users), answers);
    }

    /** `toggle_always_on_top`; `caption` is the text the menu action
        shows afterwards. */
    method ToggleAlwaysOnTop() returns (caption: string)
      requires Valid()
      modifies this
      ensures Valid()
      ensures (State(), caption) == CS.ToggleAlwaysOnTop(old(State()))
      ensures alwaysOnTop == !old(alwaysOnTop)
      ensures caption == CS.MenuLabel(alwaysOnTop)
      ensures users == old(users) && colors == old(colors)
      ensures current == old(current) && history == old(history)
    {
      alwaysOnTop := !alwaysOnTop;
      if alwaysOnTop {
        caption := "Disable Always On Top";
      } else {
        caption := "Enable Always On Top";
      }
    }

    /** `eventFilter` on the message entry: `handled` is what the filter
        returns and `after` the entry's text afterwards. */
    method EventFilter(ev: CS.Event, entry: string) returns (handled: bool, after: string)
      requires Valid()
      modifies this
      ensures Valid()
      ensures (State(), after, handled) == CS.EventFilter(old(State()), ev, entry)
      ensures handled <==> CS.Handled(ev)
      ensures !handled ==> State() == old(State()) && after == entry
    {
      if ev.KeyPress? && (ev.key == CS.Return || ev.key == CS.Enter) {
        after := AddMessage(entry);
        handled := true;
      } else if ev.KeyPress? && ev.key == CS.Tab {
        ChangeTurn();
        after := entry;
        handled := true;
      } else {
        after := entry;
        handled := false;
      }
    }
  }

  /** The callbacks run one after another on one window: `lines` is the
      history after a first message from slot 0, a turn change, a rename
      and a second message from slot 1. The first line keeps the name
      "User 1" it was sent with, whatever the rename did; the second
      carries slot 1's name as the rename left it. */
  method Conversation(first: string, second: string, answers: seq<CS.Answer>)
    returns (lines: seq<CS.Line>)
    requires !AllSpace(first) && !AllSpace(second) && |answers| == 2
    ensures |lines| == 2
    ensures lines[0] == (CS.FormatLine("User 1", Strip(first)), 0)
    ensures lines[1] == (CS.FormatLine(CS.RenamedSlot("User 2", answers[1]), Strip(second)), 1)
  {
    var w := new StickyNoteChat();
    var e := w.AddMessage(first);
    w.ChangeTurn();
    w.ChangeUserNames(answers);
    e := w.AddMessage(second);
    lines := w.history;
    w.ClearMessages();
    assert w.history == [] && w.current == 1;
  }
}
