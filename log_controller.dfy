// The log controller: every message is kept in a history and forwarded to the
// log widget while one is attached; attaching a widget replays the history.
module Logging {

  /** A log widget: the pieces of text written to it since it was last cleared. */
  class LogView {
    var lines: seq<string>

    constructor ()
      ensures lines == []
    {
      lines := [];
    }

    method Clear()
      modifies this`lines
      ensures lines == []
    {
      lines := [];
    }

    method Write(text: string)
      modifies this`lines
      ensures lines == old(lines) + [text]
    {
      lines := lines + [text];
    }
  }

  /** What a refresh writes: each message followed by a newline, oldest first. */
  function Replayed(messages: seq<string>): (r: seq<string>)
    ensures |r| == |messages|
    ensures forall i :: 0 <= i < |messages| ==> r[i] == messages[i] + "\n"
  {
    if messages == [] then [] else Replayed(messages[..|messages| - 1]) + [messages[|messages| - 1] + "\n"]
  }

  /** Replaying one more message writes one more line at the end. */
  lemma {:induction false} ReplayedAppend(messages: seq<string>, m: string)
    ensures Replayed(messages + [m]) == Replayed(messages) + [m + "\n"]
  {
    assert (messages + [m])[..|messages|] == messages;
  }

  /** Replaying is one-to-one: the widget's text after a refresh determines the history. */
  lemma ReplayedInjective(a: seq<string>, b: seq<string>)
    requires Replayed(a) == Replayed(b)
    ensures a == b
  {
    assert |a| == |b|;
    forall i | 0 <= i < |a|
      ensures a[i] == b[i]
    {
      assert Replayed(a)[i] == a[i] + "\n" && Replayed(b)[i] == b[i] + "\n";
      assert a[i] == (a[i] + "\n")[..|a[i]|];
      assert |a[i]| == |b[i]|;
      assert b[i] == (b[i] + "\n")[..|b[i]|];
    }
  }

  class LogController {
    var messages: seq<string>
    var logWidget: LogView?

    constructor ()
      ensures messages == [] && logWidget == null
    {
      messages := [];
      logWidget := null;
    }

    /** `refresh_log_widget`: an attached widget is cleared and shown the whole history. */
    method RefreshLogWidget()
      modifies logWidget
      ensures logWidget != null ==> logWidget.lines == Replayed(messages)
    {
      if logWidget != null {
        logWidget.Clear();
        for i := 0 to |messages|
          invariant logWidget.lines == Replayed(messages[..i])
        {
          ReplayedAppend(messages[..i], messages[i]);
          assert messages[..i + 1] == messages[..i] + [messages[i]];
          logWidget.Write(messages[i] + "\n");
        }
        assert messages[..|messages|] == messages;
      }
    }

    /** `set_log_widget`: the widget (or none) is attached and refreshed; the history is kept. */
    method SetLogWidget(widget: LogView?)
      modifies this`logWidget, widget
      ensures logWidget == widget && messages == old(messages)
      ensures widget != null ==> widget.lines == Replayed(messages)
    {
      logWidget := widget;
      RefreshLogWidget();
    }

    /** `write`: the message joins the history and, while a widget is attached, is written to it. */
    method Write(message: string)
      modifies this`messages, logWidget
      ensures messages == old(messages) + [message]
      ensures logWidget != null ==> logWidget.lines == old(logWidget.lines) + [message]
    {
      messages := messages + [message];
      if logWidget != null {
        logWidget.Write(message);
      }
    }
  }

  /**
   * Writing while detached only extends the history: a widget attached later
   * shows every message, the ones written while detached included.
   */
  method DetachedWritesReplayed(log: LogController, widget: LogView, message: string)
    modifies log, widget
    ensures log.messages == old(log.messages) + [message]
    ensures widget.lines == Replayed(old(log.messages)) + [message + "\n"]
  {
    log.SetLogWidget(null);
    log.Write(message);
    log.SetLogWidget(widget);
    ReplayedAppend(old(log.messages), message);
  }
}
