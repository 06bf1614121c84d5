/**
 * The record consumer of the console's main script (LogCatConsole.py):
 * a single-threaded loop over two FIFO queues, the local `internal_logger`
 * and the server's output queue, driving the spinner's `enabled` flag.
 *
 * Before the server reports a connection, an iteration drains the local
 * queue only and then re-enables the spinner; once connected, each step
 * takes from the local queue when it holds a record and from the server
 * queue otherwise, then hides the spinner and prints the record with `out`.
 */
module ConsoleLoop {
  import opened LogFormat

  /** Which queue a record was taken from. */
  datatype Source = Local | Server

  datatype Taken = Taken(src: Source, rec: Record)

  /**
   * What the loops write to the terminal: a bare `print()`, or the line `out`
   * prints for the record `rec`, whose colours and text are
   * `Out(rec).value.line`.
   */
  datatype Output = BlankLine | Printed(rec: Record)

  /** The records of `q`, each labelled with the queue it comes from. */
  function Tag(src: Source, q: seq<Record>): seq<Taken>
  {
    seq(|q|, i requires 0 <= i < |q| => Taken(src, q[i]))
  }

  /** The records of `ts`, labels dropped. */
  function Records(ts: seq<Taken>): seq<Record>
  {
    seq(|ts|, i requires 0 <= i < |ts| => ts[i].rec)
  }

  /** The records of `ts` that came from `src`, in the order they were taken. */
  function FromSource(ts: seq<Taken>, src: Source): (q: seq<Record>)
    ensures |q| <= |ts|
  {
    if ts == [] then []
    else (if ts[0].src == src then [ts[0].rec] else []) + FromSource(ts[1..], src)
  }

  lemma {:induction false} FromSourceAppend(a: seq<Taken>, b: seq<Taken>, src: Source)
    ensures FromSource(a + b, src) == FromSource(a, src) + FromSource(b, src)
  {
    if a == [] {
      assert a + b == b;
    } else {
      var h := if a[0].src == src then [a[0].rec] else [];
      assert (a + b)[0] == a[0];
      assert (a + b)[1..] == a[1..] + b;
      FromSourceAppend(a[1..], b, src);
      assert FromSource(a + b, src) == h + (FromSource(a[1..], src) + FromSource(b, src));
      assert FromSource(a, src) == h + FromSource(a[1..], src);
    }
  }

  /** Labelling a queue and selecting its source again gives the queue back; the other source gets nothing. */
  lemma {:induction false} FromSourceTag(src: Source, q: seq<Record>, other: Source)
    ensures FromSource(Tag(src, q), src) == q
    ensures other != src ==> FromSource(Tag(src, q), other) == []
  {
    if q != [] {
      assert Tag(src, q)[1..] == Tag(src, q[1..]);
      FromSourceTag(src, q[1..], other);
    }
  }

  /** The terminal output of `out` over the records of `q`; a record whose severity is not in the colour table prints nothing. */
  function Outputs(q: seq<Record>): (o: seq<Output>)
    ensures |o| <= |q|
    ensures BlankLine !in o
  {
    if q == [] then []
    else
      (if Raises(q[0]) then [] else [Printed(q[0])]) + Outputs(q[1..])
  }

  lemma {:induction false} OutputsAppend(a: seq<Record>, b: seq<Record>)
    ensures Outputs(a + b) == Outputs(a) + Outputs(b)
  {
    if a == [] {
      assert a + b == b;
    } else {
      var head := if Raises(a[0]) then [] else [Printed(a[0])];
      assert (a + b)[0] == a[0] && (a + b)[1..] == a[1..] + b;
      assert Outputs(a + b) == head + Outputs(a[1..] + b);
      OutputsAppend(a[1..], b);
      AppendAssoc(head, Outputs(a[1..]), Outputs(b));
    }
  }

  /** When `out` raises on none of the records, each of them prints its line, in order. */
  lemma {:induction false} OutputsAllPrinted(q: seq<Record>)
    requires FirstFailure(q) == |q|
    ensures |Outputs(q)| == |q|
    ensures forall i :: 0 <= i < |q| ==> Outputs(q)[i] == Printed(q[i])
  {
    if q != [] {
      assert !Raises(q[0]) && FirstFailure(q[1..]) == |q[1..]|;
      OutputsAllPrinted(q[1..]);
      assert Outputs(q) == [Printed(q[0])] + Outputs(q[1..]);
    }
  }

  /** The index of the first record of `q` that `out` fails on, or `|q|` when it fails on none. */
  function FirstFailure(q: seq<Record>): (k: nat)
    ensures k <= |q|
    ensures forall i :: 0 <= i < k ==> !Raises(q[i])
    ensures k < |q| ==> Raises(q[k])
  {
    if q == [] then 0 else if Raises(q[0]) then 0 else 1 + FirstFailure(q[1..])
  }

  /** How many records draining `q` takes before `out` raises or the queue is empty. */
  function Drained(q: seq<Record>): (n: nat)
    ensures n <= |q|
    ensures n == |q| <==> (FirstFailure(q) == |q| || FirstFailure(q) == |q| - 1)
  {
    if FirstFailure(q) < |q| then FirstFailure(q) + 1 else |q|
  }

  /**
   * The order in which connected-phase steps take records when nothing new
   * arrives: the local queue's head whenever it has one, else the server's.
   */
  function MergeOrder(local: seq<Record>, server: seq<Record>): (ts: seq<Taken>)
    ensures |ts| == |local| + |server|
    decreases |local| + |server|
  {
    if local != [] then [Taken(Local, local[0])] + MergeOrder(local[1..], server)
    else if server != [] then [Taken(Server, server[0])] + MergeOrder(local, server[1..])
    else []
  }

  /** The bare `print()` that ends a spinner line before a record is printed. */
  function SpinnerBreak(shown: bool): (o: seq<Output>)
    ensures |o| <= 1 && (o == [] <==> !shown)
  {
    if shown then [BlankLine] else []
  }

  /** The first record `MergeOrder` takes, and what it takes after that. */
  lemma MergeOrderStep(local: seq<Record>, server: seq<Record>)
    requires local != [] || server != []
    ensures local != [] ==> MergeOrder(local, server) == [Taken(Local, local[0])] + MergeOrder(local[1..], server)
    ensures local == [] ==> MergeOrder(local, server) == [Taken(Server, server[0])] + MergeOrder(local, server[1..])
  {
  }

  /** With nothing arriving, every local record is taken, in order, before any server record, which follow in order. */
  lemma {:induction false} MergeOrderIsConcat(local: seq<Record>, server: seq<Record>)
    ensures MergeOrder(local, server) == Tag(Local, local) + Tag(Server, server)
    decreases |local| + |server|
  {
    if local != [] {
      MergeOrderIsConcat(local[1..], server);
      assert Tag(Local, local) == [Taken(Local, local[0])] + Tag(Local, local[1..]);
    } else if server != [] {
      MergeOrderIsConcat(local, server[1..]);
      assert Tag(Server, server) == [Taken(Server, server[0])] + Tag(Server, server[1..]);
    } else {
      assert Tag(Local, local) + Tag(Server, server) == [];
    }
  }

  /** Local records `[a, b]` and a server record `[c]` come out as a, b, c. */
  lemma MergeExample(a: Record, b: Record, c: Record)
    ensures MergeOrder([a, b], [c]) == [Taken(Local, a), Taken(Local, b), Taken(Server, c)]
  {
    MergeOrderIsConcat([a, b], [c]);
  }

  /** The consumer's state: both queues, the server's flags, the spinner flag and what was written. */
  class Console {
    /** `internal_logger` */
    var local: seq<Record>
    /** `logcat_server.Queue` */
    var server: seq<Record>
    /** `logcat_server.is_connected()` */
    var connected: bool
    /** `logcat_server.is_closed()` */
    var closed: bool
    /** `halo2.enabled` */
    var spinnerEnabled: bool
    /** The terminal output so far. */
    var output: seq<Output>
    /** `out` has raised for a record's severity: the exception ends the loops. */
    var crashed: bool

    /** Every record ever put on each queue, and every record taken, in order. */
    ghost var localLog: seq<Record>
    ghost var serverLog: seq<Record>
    ghost var taken: seq<Taken>

    /**
     * FIFO per source: the records taken from a queue, followed by what is
     * still in it, are exactly what was put on it.
     */
    ghost predicate Valid()
      reads this`local, this`server, this`localLog, this`serverLog, this`taken
    {
      FromSource(taken, Local) + local == localLog &&
      FromSource(taken, Server) + server == serverLog
    }

    /** The state when the loops begin: nothing queued, not connected, spinner hidden. */
    constructor ()
      ensures Valid()
      ensures local == [] && server == [] && output == [] && taken == []
      ensures !connected && !closed && !spinnerEnabled && !crashed
    {
      local, server := [], [];
      connected, closed, spinnerEnabled := false, false, false;
      output, crashed := [], false;
      localLog, serverLog, taken := [], [], [];
    }

    /** A producer puts a record on the local queue. */
    method PushLocal(r: Record)
      requires Valid()
      modifies this
      ensures Valid()
      ensures local == old(local) + [r] && localLog == old(localLog) + [r]
      ensures server == old(server) && serverLog == old(serverLog) && taken == old(taken)
      ensures output == old(output) && spinnerEnabled == old(spinnerEnabled) && crashed == old(crashed)
      ensures connected == old(connected) && closed == old(closed)
    {
      local := local + [r];
      localLog := localLog + [r];
    }

    /** The server puts a record on its output queue. */
    method PushServer(r: Record)
      requires Valid()
      modifies this
      ensures Valid()
      ensures server == old(server) + [r] && serverLog == old(serverLog) + [r]
      ensures local == old(local) && localLog == old(localLog) && taken == old(taken)
      ensures output == old(output) && spinnerEnabled == old(spinnerEnabled) && crashed == old(crashed)
      ensures connected == old(connected) && closed == old(closed)
    {
      server := server + [r];
      serverLog := serverLog + [r];
    }

    /** The server's connection state changes. */
    method SetConnected(c: bool)
      requires Valid()
      modifies this`connected
      ensures Valid() && connected == c
    {
      connected := c;
    }

    /** The server closes; nothing reopens it. */
    method SetClosed()
      requires Valid()
      modifies this`closed
      ensures Valid() && closed
    {
      closed := true;
    }

    /** `record = <queue>.get()` for the queue `src`. */
    method Take(src: Source) returns (record: Record)
      requires Valid()
      requires src == Local ==> local != []
      requires src == Server ==> server != []
      modifies this`local, this`server, this`taken
      ensures Valid()
      ensures src == Local ==> record == old(local)[0] && local == old(local)[1..] && server == old(server)
      ensures src == Server ==> record == old(server)[0] && server == old(server)[1..] && local == old(local)
      ensures taken == old(taken) + [Taken(src, record)]
    {
      if src == Local {
        record := local[0];
        TakeKeepsFifo(taken, local, Local, record);
        TakeKeepsOther(taken, Local, Server, record);
        local := local[1..];
      } else {
        record := server[0];
        TakeKeepsFifo(taken, server, Server, record);
        TakeKeepsOther(taken, Server, Local, record);
        server := server[1..];
      }
      taken := taken + [Taken(src, record)];
    }

    /** `out(record)`: print its line, or raise when its severity has no colour. */
    method Render(record: Record)
      requires !crashed
      modifies this`output, this`crashed
      ensures output == old(output) + Outputs([record])
      ensures crashed == Out(record).Failure?
    {
      var res := Out(record);
      OutputsOne(record);
      if res.Success? {
        output := output + [Printed(record)];
      } else {
        crashed := true;
      }
    }

    /** The body of the local drain loop: hide the spinner, take the local head and print it. */
    method DrainStep()
      requires Valid() && !crashed && local != []
      modifies this
      ensures Valid()
      ensures local == old(local)[1..] && taken == old(taken) + [Taken(Local, old(local)[0])]
      ensures output == old(output) + Outputs([old(local)[0]])
      ensures crashed == Out(old(local)[0]).Failure?
      ensures !spinnerEnabled
      ensures server == old(server) && connected == old(connected) && closed == old(closed)
      ensures localLog == old(localLog) && serverLog == old(serverLog)
    {
      if spinnerEnabled {
        spinnerEnabled := false;
      }
      var record := Take(Local);
      Render(record);
    }

    /**
     * The first `n` records of `q0` have been taken from the local queue and
     * printed in order, after the `t0` taken and the `o0` printed before.
     */
    ghost predicate DrainedAlong(q0: seq<Record>, t0: seq<Taken>, o0: seq<Output>, n: nat)
      reads this`local, this`taken, this`output
    {
      n <= |q0| && local == q0[n..] &&
      taken == t0 + Tag(Local, q0[..n]) &&
      output == o0 + Outputs(q0[..n])
    }

    /** One turn of the local drain loop: one record further along the queue, and `crashed` exactly at the first failure. */
    method DrainOne(ghost q0: seq<Record>, ghost t0: seq<Taken>, ghost o0: seq<Output>, ghost n: nat)
      requires Valid() && !crashed && local != []
      requires DrainedAlong(q0, t0, o0, n) && n <= FirstFailure(q0)
      modifies this
      ensures Valid() && DrainedAlong(q0, t0, o0, n + 1)
      ensures crashed == (FirstFailure(q0) == n) && (!crashed ==> n + 1 <= FirstFailure(q0))
      ensures !spinnerEnabled
      ensures server == old(server) && connected == old(connected) && closed == old(closed)
      ensures localLog == old(localLog) && serverLog == old(serverLog)
    {
      ghost var before, printed := taken, output;
      assert local[0] == q0[n] && local[1..] == q0[n + 1..];
      DrainStep();
      DrainAdvance(q0, n, t0, o0, before, printed);
      FailureAdvance(q0, n);
    }

    /**
     * `while not internal_logger.empty(): ...`: take and print local records
     * in order, hiding the spinner before each, until the queue is empty or
     * `out` raises on a record (which ends the loop with that record taken).
     */
    method DrainLocal()
      requires Valid() && !crashed
      modifies this
      ensures Valid()
      ensures var n := Drained(old(local));
              local == old(local)[n..] &&
              taken == old(taken) + Tag(Local, old(local)[..n]) &&
              output == old(output) + Outputs(old(local)[..n])
      ensures crashed == (FirstFailure(old(local)) < |old(local)|)
      ensures !crashed ==> local == []
      ensures old(local) != [] ==> !spinnerEnabled
      ensures old(local) == [] ==> spinnerEnabled == old(spinnerEnabled)
      ensures server == old(server) && connected == old(connected) && closed == old(closed)
      ensures localLog == old(localLog) && serverLog == old(serverLog)
    {
      ghost var q0, t0, o0 := local, taken, output;
      ghost var n: nat := 0;
      assert q0[..0] == [];
      while local != [] && !crashed
        invariant Valid() && DrainedAlong(q0, t0, o0, n)
        invariant !crashed ==> n <= FirstFailure(q0)
        invariant crashed ==> n == FirstFailure(q0) + 1
        invariant n > 0 ==> !spinnerEnabled
        invariant n == 0 ==> spinnerEnabled == old(spinnerEnabled)
        invariant server == old(server) && connected == old(connected) && closed == old(closed)
        invariant localLog == old(localLog) && serverLog == old(serverLog)
        decreases |local|
      {
        DrainOne(q0, t0, o0, n);
        n := n + 1;
      }
      assert n == Drained(q0);
    }

    /**
     * One iteration of the loop that runs while the server is not connected.
     * A closed server ends the loop at once with the spinner hidden and
     * nothing taken; otherwise the local queue is drained in order, the server
     * queue is left alone, and the spinner is shown again (unless `out` raised
     * on a record, which ends the loop where it stands).
     */
    method PreConnectionIteration() returns (exit: bool)
      requires Valid() && !crashed && !connected
      modifies this
      ensures Valid()
      ensures exit == old(closed)
      ensures server == old(server) && connected == old(connected) && closed == old(closed)
      ensures localLog == old(localLog) && serverLog == old(serverLog)
      ensures old(closed) ==>
                !spinnerEnabled && !crashed &&
                local == old(local) && taken == old(taken) && output == old(output)
      ensures !old(closed) ==>
                var n := Drained(old(local));
                local == old(local)[n..] &&
                taken == old(taken) + Tag(Local, old(local)[..n]) &&
                output == old(output) + Outputs(old(local)[..n]) &&
                crashed == (FirstFailure(old(local)) < |old(local)|) &&
                spinnerEnabled == !crashed
      ensures !old(closed) && !crashed ==> local == []
    {
      if closed {
        if spinnerEnabled {
          spinnerEnabled := false;
        }
        return true;
      }
      DrainLocal();
      if !crashed {
        spinnerEnabled := true;
      }
      exit := false;
    }

    /**
     * One step of the loop that runs once the server has connected, taken
     * when at least one queue holds a record: the local queue's head when it
     * has one, else the server queue's head; a bare line is printed first if
     * the spinner was showing, and the spinner ends hidden.
     */
    method ConnectedStep() returns (record: Record)
      requires Valid() && !crashed && !closed
      requires local != [] || server != []
      modifies this`local, this`server, this`taken, this`output, this`crashed, this`spinnerEnabled
      ensures Valid()
      ensures !spinnerEnabled
      ensures old(local) != [] ==> record == old(local)[0] && local == old(local)[1..] && server == old(server)
      ensures old(local) == [] ==> record == old(server)[0] && server == old(server)[1..] && local == old(local)
      ensures taken == old(taken) + [MergeOrder(old(local), old(server))[0]]
      ensures MergeOrder(local, server) == MergeOrder(old(local), old(server))[1..]
      ensures MergeOrder(old(local), old(server))[0].rec == record
      ensures output == old(output) + SpinnerBreak(old(spinnerEnabled)) + Outputs([record])
      ensures crashed == Out(record).Failure?
      ensures connected == old(connected) && closed == old(closed)
      ensures localLog == old(localLog) && serverLog == old(serverLog)
    {
      MergeOrderStep(local, server);
      var src := if local == [] then Server else Local;
      output := output + SpinnerBreak(spinnerEnabled);
      spinnerEnabled := false;
      record := Take(src);
      Render(record);
    }

    /**
     * After `k` steps from the state where `t0` had been taken and `o0`
     * printed with the spinner `s0`: the steps took the first `k` records of
     * the merge order `m`, the queues hold the rest of that order, and the
     * output is the spinner break of the first step followed by the lines of
     * the records taken.
     */
    ghost predicate AlongMerge(m: seq<Taken>, t0: seq<Taken>, o0: seq<Output>, s0: bool, k: nat)
      reads this`local, this`server, this`taken, this`output
    {
      k <= |m| &&
      taken == t0 + m[..k] &&
      MergeOrder(local, server) == m[k..] &&
      output == o0 + (if k == 0 then [] else SpinnerBreak(s0)) + Outputs(Records(m[..k]))
    }

    /**
     * The connected-phase loop after `k` steps along the merge order `m`
     * whose first failing record is at `ff`: the steps stayed on the order,
     * `out` has raised exactly when the last step took that record, and the
     * spinner is hidden once a step has been taken.
     */
    ghost predicate RunState(m: seq<Taken>, t0: seq<Taken>, o0: seq<Output>, s0: bool, ff: nat, k: nat)
      reads this`local, this`server, this`taken, this`output, this`crashed, this`spinnerEnabled
    {
      AlongMerge(m, t0, o0, s0, k) &&
      (!crashed ==> k <= ff) && (crashed ==> k == ff + 1) &&
      (k == 0 ==> spinnerEnabled == s0) && (k > 0 ==> !spinnerEnabled)
    }

    /** One connected step keeps the taken records on the merge order, one further along it. */
    method StepAlong(ghost m: seq<Taken>, ghost t0: seq<Taken>, ghost o0: seq<Output>, ghost s0: bool,
                     ghost ff: nat, ghost k: nat)
      requires Valid() && !crashed && !closed && RunState(m, t0, o0, s0, ff, k)
      requires ff == FirstFailure(Records(m))
      requires local != [] || server != []
      modifies this`local, this`server, this`taken, this`output, this`crashed, this`spinnerEnabled
      ensures Valid() && RunState(m, t0, o0, s0, ff, k + 1)
      ensures crashed == Raises(m[k].rec)
      ensures |local| + |server| == |old(local)| + |old(server)| - 1
    {
      ghost var before, rest, printed, shown := taken, MergeOrder(local, server), output, spinnerEnabled;
      assert 0 < |rest| && Records(m)[k] == m[k].rec;
      FailureAdvance(Records(m), k);
      var record := ConnectedStep();
      assert rest[0] == m[k];
      AdvanceMerge(m, t0, before, taken, rest, MergeOrder(local, server), k);
      OutputAdvance(m, k, o0, s0, printed, output, shown, record);
    }

    /**
     * The connected-phase loop while the server stays open and nothing new
     * arrives, along the merge order `m` from its first step, up to the point where
     * both queues are empty (where the source starts waiting) or `out` raises
     * on the first failing record `ff` of the order; `k` is the number of
     * steps taken in all.
     */
    method RunAlong(ghost m: seq<Taken>, ghost t0: seq<Taken>, ghost o0: seq<Output>, ghost s0: bool, ghost ff: nat)
      returns (ghost k: nat)
      requires Valid() && !crashed && !closed && RunState(m, t0, o0, s0, ff, 0)
      requires ff == FirstFailure(Records(m))
      modifies this`local, this`server, this`taken, this`output, this`crashed, this`spinnerEnabled
      ensures Valid() && RunState(m, t0, o0, s0, ff, k)
      ensures crashed || (local == [] && server == [] && k == |m|)
    {
      k := 0;
      while (local != [] || server != []) && !crashed
        invariant Valid() && RunState(m, t0, o0, s0, ff, k)
        decreases |local| + |server|
      {
        StepAlong(m, t0, o0, s0, ff, k);
        k := k + 1;
      }
    }

    /**
     * The connected-phase loop from its start. Records are taken and printed
     * along the merge order. `out` raises exactly when some record of the
     * queues has a severity without colour, right after taking the first such
     * record; otherwise both queues run empty, and every local record has been
     * printed, in order, before every server record, in order.
     */
    method ConnectedRun() returns (ghost k: nat)
      requires Valid() && !crashed && !closed
      modifies this`local, this`server, this`taken, this`output, this`crashed, this`spinnerEnabled
      ensures Valid()
      ensures crashed || (local == [] && server == [])
      ensures |taken| == |old(taken)| + k &&
              AlongMerge(MergeOrder(old(local), old(server)), old(taken), old(output), old(spinnerEnabled), k)
      ensures !crashed ==> taken == old(taken) + Tag(Local, old(local)) + Tag(Server, old(server))
      ensures !crashed ==>
                output == old(output) +
                          (if old(local) == [] && old(server) == [] then [] else SpinnerBreak(old(spinnerEnabled))) +
                          Outputs(old(local) + old(server))
      ensures crashed == (FirstFailure(old(local) + old(server)) < |old(local) + old(server)|)
      ensures crashed ==> k == FirstFailure(old(local) + old(server)) + 1
      ensures old(local) != [] || old(server) != [] ==> k > 0 && !spinnerEnabled
      ensures old(local) == [] && old(server) == [] ==> spinnerEnabled == old(spinnerEnabled)
      ensures connected == old(connected) && closed == old(closed)
      ensures localLog == old(localLog) && serverLog == old(serverLog)
    {
      ghost var m, t0, o0, s0 := MergeOrder(local, server), taken, output, spinnerEnabled;
      ghost var ff := FirstFailure(Records(m));
      assert m[..0] == [] && Records([]) == [];
      assert RunState(m, t0, o0, s0, ff, 0);
      k := RunAlong(m, t0, o0, s0, ff);
      assert |taken| == |t0| + k;
      RunOutcome(old(local), old(server), m, ff, k, crashed);
      if !crashed {
        RunComplete(old(local), old(server), m, t0, taken, k, o0, s0, output);
      }
    }
  }

  /**
   * A run that has emptied both queues has taken the whole merge order and
   * printed every local record, then every server record, after the spinner
   * break of its first step.
   */
  lemma RunComplete(local: seq<Record>, server: seq<Record>, m: seq<Taken>, t0: seq<Taken>, taken: seq<Taken>,
                    k: nat, o0: seq<Output>, s0: bool, output: seq<Output>)
    requires m == MergeOrder(local, server)
    requires k <= |m| && taken == t0 + m[..k] && m[k..] == []
    requires output == o0 + (if k == 0 then [] else SpinnerBreak(s0)) + Outputs(Records(m[..k]))
    ensures taken == t0 + Tag(Local, local) + Tag(Server, server)
    ensures output == o0 + (if local == [] && server == [] then [] else SpinnerBreak(s0)) + Outputs(local + server)
  {
    MergeOrderIsConcat(local, server);
    assert m[..k] == m;
    RecordsOfTags(local, server);
    assert k == 0 <==> local == [] && server == [];
  }

  /**
   * Where a run stops along the merge order decides whether it raised: at the
   * end of the order with no failure met, or right after the first failing
   * record of the local records followed by the server records.
   */
  lemma RunOutcome(local: seq<Record>, server: seq<Record>, m: seq<Taken>, ff: nat, k: nat, crashed: bool)
    requires m == MergeOrder(local, server) && ff == FirstFailure(Records(m)) && k <= |m|
    requires !crashed ==> k == |m| && k <= ff
    requires crashed ==> k == ff + 1
    ensures crashed == (FirstFailure(local + server) < |local + server|)
    ensures crashed ==> k == FirstFailure(local + server) + 1
  {
    MergeOrderIsConcat(local, server);
    RecordsOfTags(local, server);
  }

  /** The records of labelled queues, labels dropped, are the queues one after the other. */
  lemma RecordsOfTags(local: seq<Record>, server: seq<Record>)
    ensures Records(Tag(Local, local) + Tag(Server, server)) == local + server
  {
    var ts := Tag(Local, local) + Tag(Server, server);
    assert forall i :: 0 <= i < |ts| ==> Records(ts)[i] == (local + server)[i];
  }

  /** The records of the first `k + 1` steps are those of the first `k`, then the next one. */
  lemma RecordsSnoc(m: seq<Taken>, k: nat)
    requires k < |m|
    ensures Records(m[..k + 1]) == Records(m[..k]) + [m[k].rec]
  {
  }

  /** One step along the merge order adds the optional spinner break of the first step and the line of the record taken. */
  lemma OutputAdvance(m: seq<Taken>, k: nat, o0: seq<Output>, s0: bool, output: seq<Output>,
                      output': seq<Output>, shown: bool, r: Record)
    requires k < |m| && r == m[k].rec
    requires output == o0 + (if k == 0 then [] else SpinnerBreak(s0)) + Outputs(Records(m[..k]))
    requires k == 0 ==> shown == s0
    requires k > 0 ==> !shown
    requires output' == output + SpinnerBreak(shown) + Outputs([r])
    ensures output' == o0 + SpinnerBreak(s0) + Outputs(Records(m[..k + 1]))
  {
    var before := Records(m[..k]);
    RecordsSnoc(m, k);
    OutputsAppend(before, [r]);
    if k == 0 {
      assert before == [];
      assert output == o0;
    } else {
      assert SpinnerBreak(shown) == [];
      AppendAssoc(o0 + SpinnerBreak(s0), Outputs(before), Outputs([r]));
    }
  }

  /** One step along the merge order: the taken prefix grows by the next record of the order. */
  lemma AdvanceMerge(m: seq<Taken>, t0: seq<Taken>, taken: seq<Taken>, taken': seq<Taken>,
                     rest: seq<Taken>, rest': seq<Taken>, k: nat)
    requires k < |m| && taken == t0 + m[..k] && rest == m[k..]
    requires taken' == taken + [rest[0]] && rest' == rest[1..]
    ensures taken' == t0 + m[..k + 1] && rest' == m[k + 1..]
  {
    assert m[..k + 1] == m[..k] + [m[k]];
  }

  /** Taking the head of a queue keeps the records of its source in FIFO order. */
  lemma TakeKeepsFifo(taken: seq<Taken>, q: seq<Record>, src: Source, r: Record)
    requires q != [] && r == q[0]
    ensures FromSource(taken + [Taken(src, r)], src) + q[1..] == FromSource(taken, src) + q
  {
    FromSourceAppend(taken, [Taken(src, r)], src);
    assert FromSource([Taken(src, r)], src) == [r];
    assert q == [r] + q[1..];
  }

  /** Taking from one queue does not change what was taken from the other. */
  lemma TakeKeepsOther(taken: seq<Taken>, src: Source, other: Source, r: Record)
    requires other != src
    ensures FromSource(taken + [Taken(src, r)], other) == FromSource(taken, other)
  {
    FromSourceAppend(taken, [Taken(src, r)], other);
    assert FromSource([Taken(src, r)], other) == [];
  }

  /** The output of `out` for one record. */
  lemma OutputsOne(r: Record)
    ensures Outputs([r]) == (if Out(r).Success? then [Printed(r)] else [])
  {
    assert [r][1..] == [];
  }

  lemma AppendAssoc<T>(a: seq<T>, b: seq<T>, c: seq<T>)
    ensures (a + b) + c == a + (b + c)
  {
  }

  /** One more local record drained: the taken and printed prefixes grow by that record. */
  lemma DrainAdvance(q0: seq<Record>, n: nat, t0: seq<Taken>, o0: seq<Output>, taken: seq<Taken>, output: seq<Output>)
    requires n < |q0|
    requires taken == t0 + Tag(Local, q0[..n]) && output == o0 + Outputs(q0[..n])
    ensures taken + [Taken(Local, q0[n])] == t0 + Tag(Local, q0[..n + 1])
    ensures output + Outputs([q0[n]]) == o0 + Outputs(q0[..n + 1])
  {
    assert q0[..n + 1] == q0[..n] + [q0[n]];
    assert Tag(Local, q0[..n + 1]) == Tag(Local, q0[..n]) + [Taken(Local, q0[n])];
    OutputsAppend(q0[..n], [q0[n]]);
    AppendAssoc(t0, Tag(Local, q0[..n]), [Taken(Local, q0[n])]);
    AppendAssoc(o0, Outputs(q0[..n]), Outputs([q0[n]]));
  }

  /** Whether the record after a run of successes is the first failure. */
  lemma FailureAdvance(q: seq<Record>, n: nat)
    requires n < |q| && n <= FirstFailure(q)
    ensures Raises(q[n]) ==> FirstFailure(q) == n
    ensures !Raises(q[n]) ==> n + 1 <= FirstFailure(q)
  {
  }
}
