/** The apply and check jobs as the loops they are, each run to its end without interruption. The
  * interleaved form of the same two jobs is in CommandProtocol; both decide rows by Verdict. */
module CommandJobs {
  import opened Wrappers
  import opened CommandTable

  /** An entry of the activity log, or the alert that goes with it: which row, and what became of it. */
  datatype Outcome = Outcome(id: nat, status: Status)

  /** How the SSH side of a tick turns out: the roles that have a target row, the rows whose apply
    * call returns success, and what verify-confirm answers. */
  datatype Network = Network(targets: set<Device>, applies: set<nat>, answers: map<nat, bool>)
  {
    function Answer(id: nat): Option<bool> {
      if id in answers then Some(answers[id]) else None
    }
  }

  /** What an uninterrupted check tick makes of row `id`. */
  function Checked(c: Command, id: nat, at: int, delaySeconds: int, net: Network): Command {
    if c.status == Applied && c.device in net.targets
    then c.(status := Verdict(c, at - c.appliedAt, delaySeconds, net.Answer(id)))
    else c
  }

  /** What has to become of a row in a check tick: only an applied row of a role with a target is decided. */
  predicate RowDecided(c: Command, after: Command, id: nat, at: int, delaySeconds: int, net: Network) {
    if c.status == Applied && c.device in net.targets
    then DecidedBy(c, after, at - c.appliedAt, delaySeconds, if id in net.answers then Some(net.answers[id]) else None)
    else after == c
  }

  lemma CheckedDecides(c: Command, id: nat, at: int, delaySeconds: int, net: Network)
    ensures RowDecided(c, Checked(c, id, at, delaySeconds, net), id, at, delaySeconds, net)
  {
  }

  /** What an uninterrupted apply tick makes of row `id`; a reboot counts as sent whatever the
    * connection did. */
  function AppliedTo(c: Command, id: nat, now: int, net: Network): Command {
    if c.status != Pending || c.device !in net.targets then c
    else if c.param == Reboot then c.(status := Acked, appliedAt := now)
    else if id in net.applies then c.(status := Applied, appliedAt := now)
    else c
  }

  /** What a check tick reports on one row: its new status, if it got one. */
  function Decision(c: Command, id: nat, at: int, delaySeconds: int, net: Network): seq<Outcome> {
    var c' := Checked(c, id, at, delaySeconds, net);
    if c'.status == c.status then [] else [Outcome(id, c'.status)]
  }

  /** The decisions a check tick reports on the first n rows it selected, in order. */
  function Reported(t: Table, rows: seq<nat>, n: nat, at: int, delaySeconds: int, net: Network): seq<Outcome>
    requires n <= |rows| && forall k :: 0 <= k < |rows| ==> rows[k] < |t|
  {
    if n == 0 then []
    else Reported(t, rows, n - 1, at, delaySeconds, net) + Decision(t[rows[n - 1]], rows[n - 1], at, delaySeconds, net)
  }

  /** A decision is reported exactly when a selected row gets a new status, and then once. */
  lemma {:induction false} ReportedExactly(t: Table, rows: seq<nat>, n: nat, at: int, delaySeconds: int, net: Network)
    requires n <= |rows| && forall k :: 0 <= k < |rows| ==> rows[k] < |t|
    requires forall j, k :: 0 <= j < k < |rows| ==> rows[j] < rows[k]
    ensures var r := Reported(t, rows, n, at, delaySeconds, net);
      && (forall o :: o in r <==>
            && o.id in rows[..n] && o.status == Checked(t[o.id], o.id, at, delaySeconds, net).status
            && o.status != t[o.id].status)
      && (forall j, k :: 0 <= j < k < |r| ==> r[j].id < r[k].id)
  {
    if n > 0 {
      ReportedExactly(t, rows, n - 1, at, delaySeconds, net);
      var before := Reported(t, rows, n - 1, at, delaySeconds, net);
      assert rows[..n] == rows[..n - 1] + [rows[n - 1]];
      forall j | 0 <= j < |before| ensures before[j].id < rows[n - 1] {
        assert before[j] in before;
      }
    }
  }

  class Jobs {
    var commands: Table
    var outcomes: seq<Outcome>

    constructor (t: Table)
      ensures commands == t && outcomes == []
    {
      commands := t;
      outcomes := [];
    }

    /** Every applied row of a reachable role is decided by its own age and answer, no other row
      * changes, and the decisions are reported in row order. */
    method CheckInFlight(at: int, delaySeconds: int, net: Network)
      modifies this
      ensures |commands| == |old(commands)|
      ensures forall i :: 0 <= i < |commands| ==>
        RowDecided(old(commands)[i], commands[i], i, at, delaySeconds, net)
      ensures forall i :: 0 <= i < |commands| ==> commands[i] == Checked(old(commands)[i], i, at, delaySeconds, net)
      ensures outcomes ==
        old(outcomes) + Reported(old(commands), IdsWith(old(commands), Applied), |IdsWith(old(commands), Applied)|,
                                 at, delaySeconds, net)
    {
      var rows := IdsWith(commands, Applied);
      CheckRows(commands, rows, at, delaySeconds, net);
      assert forall i :: 0 <= i < |commands| && i !in rows ==> old(commands)[i].status != Applied;
      forall i | 0 <= i < |commands| ensures RowDecided(old(commands)[i], commands[i], i, at, delaySeconds, net) {
        CheckedDecides(old(commands)[i], i, at, delaySeconds, net);
      }
    }

    /** The loop over the selected rows; `snap` is the table as it was selected. */
    method CheckRows(snap: Table, rows: seq<nat>, at: int, delaySeconds: int, net: Network)
      requires commands == snap && forall k :: 0 <= k < |rows| ==> rows[k] < |snap| && snap[rows[k]].status == Applied
      requires forall j, k :: 0 <= j < k < |rows| ==> rows[j] < rows[k]
      modifies this
      ensures |commands| == |snap|
      ensures forall i :: 0 <= i < |snap| ==>
        commands[i] == if i in rows then Checked(snap[i], i, at, delaySeconds, net) else snap[i]
      ensures outcomes == old(outcomes) + Reported(snap, rows, |rows|, at, delaySeconds, net)
    {
      for k := 0 to |rows|
        invariant |commands| == |snap|
        invariant forall i :: 0 <= i < |snap| ==>
          commands[i] == if i in rows[..k] then Checked(snap[i], i, at, delaySeconds, net) else snap[i]
        invariant outcomes == old(outcomes) + Reported(snap, rows, k, at, delaySeconds, net)
      {
        NextIsNew(rows, k);
        CheckRow(rows[k], snap[rows[k]], at, delaySeconds, net);
      }
      assert rows[..|rows|] == rows;
    }

    /** One turn of the loop: `c` is the row as selected. */
    method CheckRow(id: nat, c: Command, at: int, delaySeconds: int, net: Network)
      requires id < |commands| && commands[id] == c && c.status == Applied
      modifies this
      ensures commands == old(commands)[id := Checked(c, id, at, delaySeconds, net)]
      ensures RowDecided(c, commands[id], id, at, delaySeconds, net)
      ensures outcomes == old(outcomes) + Decision(c, id, at, delaySeconds, net)
    {
      if c.device in net.targets {
        var status := Verdict(c, at - c.appliedAt, delaySeconds, net.Answer(id));
        if status != c.status {
          commands := commands[id := c.(status := status)];
          outcomes := outcomes + [Outcome(id, status)];
        }
      }
    }

    /** Every pending row of a reachable role whose call succeeds moves to applied (a reboot to
      * acked), stamped with the tick's time; no other row changes. */
    method ApplyPending(now: int, net: Network)
      modifies this`commands
      ensures |commands| == |old(commands)|
      ensures forall i :: 0 <= i < |commands| ==>
        var c, after := old(commands)[i], commands[i];
        var due := c.status == Pending && c.device in net.targets;
        && after == c.(status := after.status, appliedAt := after.appliedAt)
        && (after.status != c.status || after.appliedAt != c.appliedAt ==> due && after.appliedAt == now)
        && (due && c.param == Reboot ==> after.status == Acked && after.appliedAt == now)
        && (due && c.param != Reboot ==> after.status == if i in net.applies then Applied else Pending)
        && (due && c.param != Reboot ==> after.appliedAt == if i in net.applies then now else c.appliedAt)
      ensures forall i :: 0 <= i < |commands| ==> commands[i] == AppliedTo(old(commands)[i], i, now, net)
    {
      var snap := commands;
      var rows := IdsWith(snap, Pending);
      for k := 0 to |rows|
        invariant |commands| == |snap|
        invariant forall i :: 0 <= i < |snap| && i in rows[..k] ==> commands[i] == AppliedTo(snap[i], i, now, net)
        invariant forall i :: 0 <= i < |snap| && i !in rows[..k] ==> commands[i] == snap[i]
      {
        var id := rows[k];
        var c := snap[id];
        NextIsNew(rows, k);
        if c.device in net.targets {
          if c.param == Reboot {
            commands := commands[id := c.(status := Acked, appliedAt := now)];
          } else if id in net.applies {
            commands := commands[id := c.(status := Applied, appliedAt := now)];
          }
        }
      }
      assert rows[..|rows|] == rows;
    }
  }

  lemma NextIsNew(rows: seq<nat>, k: nat)
    requires k < |rows| && forall i, j :: 0 <= i < j < |rows| ==> rows[i] < rows[j]
    ensures rows[k] !in rows[..k]
    ensures forall i :: i in rows[..k + 1] <==> i in rows[..k] || i == rows[k]
  {
    assert rows[..k + 1] == rows[..k] + [rows[k]];
  }

  /** A tick over a table decides every row old enough: nothing overdue stays applied. */
  lemma NothingOverdueStays(c: Command, id: nat, at: int, delaySeconds: int, net: Network)
    requires c.status == Applied && c.device in net.targets
    ensures var c' := Checked(c, id, at, delaySeconds, net);
      c'.status == Applied <==>
        at - c.appliedAt < delaySeconds * 1_000_000 ||
        (id !in net.answers && at - c.appliedAt < (c.ttlSeconds + 15) * 1_000_000)
  {
  }
}
