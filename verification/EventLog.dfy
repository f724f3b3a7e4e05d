/** The device's own event log: a sequence counter and an append-and-trim file
  * (agent/wifi-agent.sh, record_event). */
module EventLog {
  const MAX_LINES: nat := 50

  datatype Event = Event(seqNo: nat, ts: nat, kind: string, message: string, details: string)

  /** The newest MAX_LINES of everything ever recorded. */
  function Tail(history: seq<Event>): seq<Event> {
    if |history| > MAX_LINES then history[|history| - MAX_LINES..] else history
  }

  /** The k-th event ever recorded carries sequence number k + 1. */
  ghost predicate Numbered(history: seq<Event>) {
    forall k :: 0 <= k < |history| ==> history[k].seqNo == k + 1
  }

  class Log {
    var counter: nat
    var lines: seq<Event>
    ghost var history: seq<Event>

    ghost predicate Valid()
      reads this
    {
      Numbered(history) && counter == |history| && lines == Tail(history)
    }

    constructor ()
      ensures Valid() && history == []
    {
      counter := 0;
      lines := [];
      history := [];
    }

    /** The new event gets the next number, and the file keeps the last MAX_LINES events. */
    method RecordEvent(ts: nat, kind: string, message: string, details: string)
      requires Valid()
      modifies this
      ensures Valid()
      ensures history == old(history) + [Event(|old(history)| + 1, ts, kind, message, details)]
    {
      counter := counter + 1;
      var e := Event(counter, ts, kind, message, details);
      lines := lines + [e];
      if |lines| > MAX_LINES {
        lines := lines[|lines| - MAX_LINES..];
      }
      history := history + [e];
    }
  }

  /** The file holds the last min(50, n) of the n recorded events, numbered without a gap and in
    * strictly increasing order, so its first line tells exactly which events it lacks. */
  lemma LogWindow(history: seq<Event>)
    requires Numbered(history)
    ensures |Tail(history)| == (if |history| < 50 then |history| else 50)
    ensures forall k :: 0 <= k < |Tail(history)| ==> Tail(history)[k].seqNo == |history| - |Tail(history)| + k + 1
    ensures forall e :: e in Tail(history) <==> e in history && e.seqNo > |history| - 50
  {
    var t := Tail(history);
    forall e | e in t ensures e in history && e.seqNo > |history| - MAX_LINES {
      var k :| 0 <= k < |t| && t[k] == e;
      assert t[k] == history[|history| - |t| + k];
    }
    forall e | e in history && e.seqNo > |history| - MAX_LINES ensures e in t {
      var k :| 0 <= k < |history| && history[k] == e;
      assert history[k] == t[k - (|history| - |t|)];
    }
  }
}
