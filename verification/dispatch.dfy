/**
 * The meaning of `SourceParser#top_level_parse` as functions: statements in
 * order, for each the handlers `find_handlers` returns, each run once inside
 * its own rescue boundary, with the context threaded through all of them.
 * The class in module SourceParsing is proved to compute exactly this, and
 * to visit exactly the pairs `MatchingPairs` lists.
 */
module Dispatching {
  import opened ParserTypes
  import opened Resolver

  /** The number of backtrace frames kept in the debug record (`e.backtrace[0..5]`). */
  const TraceDepth := 6

  /** The first `TraceDepth` frames of a backtrace, or all of them if it is shorter. */
  function TraceHead(backtrace: seq<string>): (frames: seq<string>)
    ensures frames <= backtrace
    ensures |frames| == if |backtrace| < TraceDepth then |backtrace| else TraceDepth
  {
    if |backtrace| <= TraceDepth then backtrace else backtrace[..TraceDepth]
  }

  /**
   * The records logged when handler `handler` ends with `outcome` on a
   * statement at `line` of `file`: nothing on success, two warnings for an
   * undocumentable construct, three errors and a debug trace for any other
   * exception.
   */
  function Report(handler: string, file: string, line: nat, outcome: Outcome): (records: seq<Diagnostic>)
    ensures |records| == if outcome.Ok? then 0 else if outcome.Undocumentable? then 2 else 4
  {
    match outcome
    case Ok(_) => []
    case Undocumentable(_, message) =>
      [ Diagnostic(Warn, handler, file, line, UndocumentableNote(message)),
        Diagnostic(Warn, handler, file, line, StatementLocation) ]
    case Fault(_, message, backtrace) =>
      [ Diagnostic(Error, handler, file, line, UnhandledException),
        Diagnostic(Error, handler, file, line, ErrorMessage(message)),
        Diagnostic(Error, handler, file, line, StatementLocation),
        Diagnostic(Debug, handler, file, line, StackTrace(TraceHead(backtrace))) ]
  }

  /**
   * Failure classification: a handler that succeeds logs nothing; an
   * undocumentable construct logs warnings only, one carrying its message; any
   * other exception logs errors carrying its message and ends with one debug
   * record holding at most `TraceDepth` frames of its backtrace. Every record
   * is tagged with the handler, the file and the line of the attempt.
   */
  lemma ReportClassifies(handler: string, file: string, line: nat, outcome: Outcome)
    ensures var records := Report(handler, file, line, outcome);
      && (records == [] <==> outcome.Ok?)
      && (forall d :: d in records ==> d.handler == handler && d.file == file && d.line == line)
      && ((exists d :: d in records && d.level == Warn) <==> outcome.Undocumentable?)
      && ((exists d :: d in records && d.level == Error) <==> outcome.Fault?)
      && (forall d :: d in records && d.detail.StackTrace? ==> |d.detail.frames| <= TraceDepth)
      && (outcome.Undocumentable? ==>
            && |records| == 2
            && (forall d :: d in records ==> d.level == Warn)
            && Diagnostic(Warn, handler, file, line, UndocumentableNote(outcome.message)) in records)
      && (outcome.Fault? ==>
            && |records| == 4
            && Diagnostic(Error, handler, file, line, ErrorMessage(outcome.message)) in records
            && records[|records| - 1] == Diagnostic(Debug, handler, file, line, StackTrace(TraceHead(outcome.backtrace)))
            && forall k :: 0 <= k < |records| - 1 ==> records[k].level == Error)
  {
    var records := Report(handler, file, line, outcome);
    if outcome.Undocumentable? {
      assert records[0].level == Warn;
    } else if outcome.Fault? {
      assert records[0].level == Error;
    }
  }

  /** The parser's context and the log, as a run leaves them. */
  datatype Run = Run(context: Context, log: seq<Diagnostic>)

  /** One `begin ... rescue ... end` block: `handler` constructed and processed on `stmt`. */
  function Attempt(handler: Handler, file: string, stmt: Statement, run: Run): (r: Run)
    requires WellFormed(stmt)
    ensures run.log <= r.log && |r.log| <= |run.log| + 4
  {
    var outcome := handler.process(file, run.context, stmt);
    Run(outcome.after, run.log + Report(handler.name, file, LineOf(stmt), outcome))
  }

  /** The inner loop: `handlers`, in order, each on `stmt`, each seeing the context the previous one left. */
  function RunHandlers(handlers: seq<Handler>, file: string, stmt: Statement, run: Run): (r: Run)
    requires WellFormed(stmt)
    ensures run.log <= r.log && |r.log| <= |run.log| + 4 * |handlers|
    decreases |handlers|
  {
    if |handlers| == 0 then run
    else
      var last := |handlers| - 1;
      Attempt(handlers[last], file, stmt, RunHandlers(handlers[..last], file, stmt, run))
  }

  /** One pass of the outer loop: every handler `find_handlers` returns for `stmt`. */
  function RunStatement(registry: seq<Handler>, file: string, stmt: Statement, run: Run): (r: Run)
    requires WellFormed(stmt)
    ensures run.log <= r.log && |r.log| <= |run.log| + 4 * |registry|
  {
    RunHandlers(FindHandlers(registry, stmt.tokens), file, stmt, run)
  }

  /** `top_level_parse` of `stmts` in the file labelled `file`, starting from `run`. */
  function Dispatch(registry: seq<Handler>, file: string, stmts: seq<Statement>, run: Run): (r: Run)
    requires AllWellFormed(stmts)
    ensures run.log <= r.log
    decreases |stmts|
  {
    if |stmts| == 0 then run
    else
      var last := |stmts| - 1;
      RunStatement(registry, file, stmts[last], Dispatch(registry, file, stmts[..last], run))
  }

  /** Dispatching one more statement is running that statement's handlers after the others. */
  lemma DispatchSnoc(registry: seq<Handler>, file: string, stmts: seq<Statement>, stmt: Statement, run: Run)
    requires AllWellFormed(stmts) && WellFormed(stmt)
    ensures AllWellFormed(stmts + [stmt])
    ensures Dispatch(registry, file, stmts + [stmt], run) == RunStatement(registry, file, stmt, Dispatch(registry, file, stmts, run))
  {
    AllWellFormedAppend(stmts, [stmt]);
    assert (stmts + [stmt])[..|stmts|] == stmts;
  }

  /**
   * The context is never reset: dispatching two statement lists one after
   * the other is dispatching their concatenation, so what the handlers of
   * the first leave behind is what the handlers of the second start from.
   */
  lemma {:induction false} DispatchAppend(registry: seq<Handler>, file: string, first: seq<Statement>, second: seq<Statement>, run: Run)
    requires AllWellFormed(first) && AllWellFormed(second)
    ensures AllWellFormed(first + second)
    ensures Dispatch(registry, file, first + second, run)
         == Dispatch(registry, file, second, Dispatch(registry, file, first, run))
    decreases |second|
  {
    AllWellFormedAppend(first, second);
    if |second| == 0 {
      assert first + second == first;
    } else {
      var last := |second| - 1;
      var front, stmt := second[..last], second[last];
      assert second == front + [stmt];
      assert first + second == (first + front) + [stmt];
      AllWellFormedAppend(first, front);
      DispatchAppend(registry, file, first, front, run);
      DispatchSnoc(registry, file, first + front, stmt, run);
      DispatchSnoc(registry, file, front, stmt, Dispatch(registry, file, first, run));
    }
  }

  /**
   * A statement that no registered handler accepts runs nothing: the context
   * and the log are left as they were.
   */
  lemma UnmatchedStatementIsSkipped(registry: seq<Handler>, file: string, stmt: Statement, run: Run)
    requires WellFormed(stmt)
    requires forall j :: 0 <= j < |registry| ==> !registry[j].handles(stmt.tokens)
    ensures RunStatement(registry, file, stmt, run) == run
  {
    FindHandlersIsFilter(registry, stmt.tokens);
  }

  /**
   * With no handler accepting any statement (in particular with an empty
   * registry) a run changes nothing: the context stays as it started and
   * nothing is logged.
   */
  lemma {:induction false} NoMatchesChangeNothing(registry: seq<Handler>, file: string, stmts: seq<Statement>, run: Run)
    requires AllWellFormed(stmts)
    requires forall k, j :: 0 <= k < |stmts| && 0 <= j < |registry| ==> !registry[j].handles(stmts[k].tokens)
    ensures Dispatch(registry, file, stmts, run) == run
    decreases |stmts|
  {
    if |stmts| > 0 {
      var last := |stmts| - 1;
      assert forall k :: 0 <= k < last ==> stmts[..last][k] == stmts[k];
      NoMatchesChangeNothing(registry, file, stmts[..last], run);
      UnmatchedStatementIsSkipped(registry, file, stmts[last], run);
    }
  }

  /** Record `d` is about the file and about a handler of the registry that accepts a statement of `stmts`, at that statement's line. */
  predicate Attributed(registry: seq<Handler>, file: string, stmts: seq<Statement>, d: Diagnostic)
    requires AllWellFormed(stmts)
  {
    && d.file == file
    && (d.detail.StackTrace? ==> |d.detail.frames| <= TraceDepth)
    && exists k, j :: 0 <= k < |stmts| && 0 <= j < |registry|
         && registry[j].handles(stmts[k].tokens) && registry[j].name == d.handler && LineOf(stmts[k]) == d.line
  }

  /** What a log gained over two steps is what it gained in the first, then in the second. */
  lemma SuffixSplits(a: seq<Diagnostic>, b: seq<Diagnostic>, c: seq<Diagnostic>)
    requires a <= b <= c
    ensures c[|a|..] == b[|a|..] + c[|b|..]
  {
  }

  /**
   * The records one handler attempt adds name that handler, the file and the
   * statement's line, and so are attributed within the run.
   */
  lemma AttemptLogAttributed(registry: seq<Handler>, file: string, stmts: seq<Statement>, k: nat, j: nat, run: Run)
    requires AllWellFormed(stmts) && k < |stmts| && j < |registry| && registry[j].handles(stmts[k].tokens)
    ensures var r := Attempt(registry[j], file, stmts[k], run);
      && run.log <= r.log
      && (forall d :: d in r.log[|run.log|..] ==>
            d.handler == registry[j].name && d.file == file && d.line == LineOf(stmts[k]))
      && forall d :: d in r.log[|run.log|..] ==> Attributed(registry, file, stmts, d)
  {
    var outcome := registry[j].process(file, run.context, stmts[k]);
    var added := Report(registry[j].name, file, LineOf(stmts[k]), outcome);
    ReportClassifies(registry[j].name, file, LineOf(stmts[k]), outcome);
    assert Attempt(registry[j], file, stmts[k], run).log[|run.log|..] == added;
  }

  /** A record attributed within a prefix of the statements stays attributed within all of them. */
  lemma AttributedWithinPrefix(registry: seq<Handler>, file: string, stmts: seq<Statement>, n: nat, d: Diagnostic)
    requires AllWellFormed(stmts) && n <= |stmts| && AllWellFormed(stmts[..n])
    requires Attributed(registry, file, stmts[..n], d)
    ensures Attributed(registry, file, stmts, d)
  {
    var k, j :| 0 <= k < n && 0 <= j < |registry|
      && registry[j].handles(stmts[..n][k].tokens) && registry[j].name == d.handler && LineOf(stmts[..n][k]) == d.line;
    assert stmts[..n][k] == stmts[k];
  }

  /**
   * The records that running `handlers` on statement `k` adds are about the
   * file and that statement's line, each names one of `handlers`, and so each
   * is attributed within the run.
   */
  lemma {:induction false} HandlersLogAttributed(registry: seq<Handler>, file: string, stmts: seq<Statement>, k: nat, handlers: seq<Handler>, run: Run)
    requires AllWellFormed(stmts) && k < |stmts|
    requires forall h :: h in handlers ==> h.handles(stmts[k].tokens) && exists j :: 0 <= j < |registry| && registry[j] == h
    ensures var r := RunHandlers(handlers, file, stmts[k], run);
      && run.log <= r.log
      && (forall d :: d in r.log[|run.log|..] ==>
            d.file == file && d.line == LineOf(stmts[k]) && exists h :: h in handlers && h.name == d.handler)
      && forall d :: d in r.log[|run.log|..] ==> Attributed(registry, file, stmts, d)
    decreases |handlers|
  {
    if |handlers| > 0 {
      var last := |handlers| - 1;
      var prev := RunHandlers(handlers[..last], file, stmts[k], run);
      HandlersLogAttributed(registry, file, stmts, k, handlers[..last], run);
      assert handlers[last] in handlers;
      var j :| 0 <= j < |registry| && registry[j] == handlers[last];
      AttemptLogAttributed(registry, file, stmts, k, j, prev);
      var r := RunHandlers(handlers, file, stmts[k], run);
      assert r == Attempt(handlers[last], file, stmts[k], prev);
      SuffixSplits(run.log, prev.log, r.log);
    }
  }

  /**
   * The log only grows, and every record a run adds is about the run's file
   * and about a registered handler that accepts one of the run's statements,
   * at that statement's line, with a trace of at most `TraceDepth` frames.
   */
  lemma {:induction false} DispatchLogAttributed(registry: seq<Handler>, file: string, stmts: seq<Statement>, run: Run)
    requires AllWellFormed(stmts)
    ensures var r := Dispatch(registry, file, stmts, run);
      && run.log <= r.log
      && forall d :: d in r.log[|run.log|..] ==> Attributed(registry, file, stmts, d)
    decreases |stmts|
  {
    if |stmts| > 0 {
      var last := |stmts| - 1;
      var prev := Dispatch(registry, file, stmts[..last], run);
      DispatchLogAttributed(registry, file, stmts[..last], run);
      forall d | d in prev.log[|run.log|..]
        ensures Attributed(registry, file, stmts, d)
      {
        AttributedWithinPrefix(registry, file, stmts, last, d);
      }
      var found := FindHandlers(registry, stmts[last].tokens);
      FindHandlersIsFilter(registry, stmts[last].tokens);
      forall h | h in found
        ensures exists j :: 0 <= j < |registry| && registry[j] == h
      {
        var n :| 0 <= n < |found| && found[n] == h;
        assert registry[MatchingIndices(registry, stmts[last].tokens)[n]] == h;
      }
      HandlersLogAttributed(registry, file, stmts, last, found, prev);
      var r := Dispatch(registry, file, stmts, run);
      assert r == RunHandlers(found, file, stmts[last], prev);
      SuffixSplits(run.log, prev.log, r.log);
    }
  }

  /** One handler constructed and processed: registry position `handler` on statement number `statement`. */
  datatype Visit = Visit(statement: nat, handler: nat)

  /** The visits of the handlers at registry positions `idx` on statement number `i`, in that order. */
  function VisitsOf(i: nat, idx: seq<nat>): (visits: seq<Visit>)
    ensures |visits| == |idx|
    ensures forall k :: 0 <= k < |idx| ==> visits[k] == Visit(i, idx[k])
    decreases |idx|
  {
    if |idx| == 0 then [] else VisitsOf(i, idx[..|idx| - 1]) + [Visit(i, idx[|idx| - 1])]
  }

  /**
   * The visits `top_level_parse` makes on `stmts`: for each statement in
   * order, the registry positions of the handlers that accept it.
   */
  function MatchingPairs(registry: seq<Handler>, stmts: seq<Statement>): (pairs: seq<Visit>)
    ensures InRange(registry, stmts, pairs)
    decreases |stmts|
  {
    if |stmts| == 0 then []
    else
      var last := |stmts| - 1;
      MatchingPairs(registry, stmts[..last]) + VisitsOf(last, MatchingIndices(registry, stmts[last].tokens))
  }

  /** Every visit names a statement of `stmts` and a handler of `registry`. */
  predicate InRange(registry: seq<Handler>, stmts: seq<Statement>, visits: seq<Visit>) {
    forall k :: 0 <= k < |visits| ==> visits[k].statement < |stmts| && visits[k].handler < |registry|
  }

  /** Visit `a` comes strictly before visit `b`: an earlier statement, or an earlier handler of the same one. */
  predicate Precedes(a: Visit, b: Visit) {
    a.statement < b.statement || (a.statement == b.statement && a.handler < b.handler)
  }

  predicate InDispatchOrder(visits: seq<Visit>) {
    forall a, b :: 0 <= a < b < |visits| ==> Precedes(visits[a], visits[b])
  }

  /** Handler `j` of the registry accepts statement `i` of `stmts`. */
  predicate Matches(registry: seq<Handler>, stmts: seq<Statement>, i: nat, j: nat) {
    i < |stmts| && j < |registry| && registry[j].handles(stmts[i].tokens)
  }

  /** Every visit names a statement of the list and a handler that accepts it. */
  lemma {:induction false} MatchingPairsSound(registry: seq<Handler>, stmts: seq<Statement>)
    ensures forall k :: 0 <= k < |MatchingPairs(registry, stmts)| ==>
              Matches(registry, stmts, MatchingPairs(registry, stmts)[k].statement, MatchingPairs(registry, stmts)[k].handler)
    decreases |stmts|
  {
    if |stmts| > 0 {
      var last := |stmts| - 1;
      var front := stmts[..last];
      MatchingPairsSound(registry, front);
      var older := MatchingPairs(registry, front);
      var idx := MatchingIndices(registry, stmts[last].tokens);
      MatchingIndicesExact(registry, stmts[last].tokens);
      var pairs := older + VisitsOf(last, idx);
      forall k | 0 <= k < |pairs|
        ensures Matches(registry, stmts, pairs[k].statement, pairs[k].handler)
      {
        if k < |older| {
          assert Matches(registry, front, older[k].statement, older[k].handler);
          assert front[older[k].statement] == stmts[older[k].statement];
        }
      }
    }
  }

  /** Every pair of a statement and a handler that accepts it is visited. */
  lemma {:induction false} MatchingPairsComplete(registry: seq<Handler>, stmts: seq<Statement>)
    ensures forall i: nat, j: nat :: Matches(registry, stmts, i, j) ==> Visit(i, j) in MatchingPairs(registry, stmts)
    decreases |stmts|
  {
    if |stmts| > 0 {
      var last := |stmts| - 1;
      var front := stmts[..last];
      MatchingPairsComplete(registry, front);
      var older := MatchingPairs(registry, front);
      var idx := MatchingIndices(registry, stmts[last].tokens);
      MatchingIndicesExact(registry, stmts[last].tokens);
      var block := VisitsOf(last, idx);
      forall i: nat, j: nat | Matches(registry, stmts, i, j)
        ensures Visit(i, j) in older + block
      {
        if i < last {
          assert front[i] == stmts[i];
          assert Matches(registry, front, i, j);
        } else {
          var k :| 0 <= k < |idx| && idx[k] == j;
          assert block[k] == Visit(i, j);
        }
      }
    }
  }

  /** Visits come in dispatch order: statements first, then handlers in registry order. */
  lemma {:induction false} MatchingPairsOrdered(registry: seq<Handler>, stmts: seq<Statement>)
    ensures InDispatchOrder(MatchingPairs(registry, stmts))
    decreases |stmts|
  {
    if |stmts| > 0 {
      var last := |stmts| - 1;
      var front := stmts[..last];
      MatchingPairsOrdered(registry, front);
      MatchingPairsSound(registry, front);
      var older := MatchingPairs(registry, front);
      var idx := MatchingIndices(registry, stmts[last].tokens);
      MatchingIndicesExact(registry, stmts[last].tokens);
      var block := VisitsOf(last, idx);
      forall a, b | 0 <= a < b < |older + block|
        ensures Precedes((older + block)[a], (older + block)[b])
      {
        if a < |older| <= b {
          assert Matches(registry, front, older[a].statement, older[a].handler);
        }
      }
    }
  }

  /**
   * Each (statement, matching handler) pair is visited exactly once: the
   * visits are precisely the matching pairs, in dispatch order, so none is
   * repeated and none is skipped. They depend only on the statements and
   * the registry, never on what the handlers did or whether they failed.
   */
  lemma MatchingPairsExactlyOnce(registry: seq<Handler>, stmts: seq<Statement>)
    ensures InDispatchOrder(MatchingPairs(registry, stmts))
    ensures forall v :: v in MatchingPairs(registry, stmts) <==> Matches(registry, stmts, v.statement, v.handler)
  {
    MatchingPairsSound(registry, stmts);
    MatchingPairsComplete(registry, stmts);
    MatchingPairsOrdered(registry, stmts);
    var pairs := MatchingPairs(registry, stmts);
    forall v | v in pairs
      ensures Matches(registry, stmts, v.statement, v.handler)
    {
      var k :| 0 <= k < |pairs| && pairs[k] == v;
    }
  }

  /**
   * Processing the visits in order, each handler on its statement, each
   * seeing the context and log the previous one left.
   */
  function RunVisits(registry: seq<Handler>, file: string, stmts: seq<Statement>, visits: seq<Visit>, run: Run): Run
    requires AllWellFormed(stmts) && InRange(registry, stmts, visits)
    decreases |visits|
  {
    if |visits| == 0 then run
    else
      var last := |visits| - 1;
      var v := visits[last];
      Attempt(registry[v.handler], file, stmts[v.statement], RunVisits(registry, file, stmts, visits[..last], run))
  }

  /** A concatenation of visit lists is in range exactly when both parts are. */
  lemma InRangeAppend(registry: seq<Handler>, stmts: seq<Statement>, first: seq<Visit>, second: seq<Visit>)
    ensures InRange(registry, stmts, first + second) <==> InRange(registry, stmts, first) && InRange(registry, stmts, second)
  {
    var all := first + second;
    if InRange(registry, stmts, all) {
      forall k | 0 <= k < |first|
        ensures first[k].statement < |stmts| && first[k].handler < |registry|
      {
        assert all[k] == first[k];
      }
      forall k | 0 <= k < |second|
        ensures second[k].statement < |stmts| && second[k].handler < |registry|
      {
        assert all[|first| + k] == second[k];
      }
    }
    if InRange(registry, stmts, first) && InRange(registry, stmts, second) {
      forall k | |first| <= k < |all|
        ensures all[k].statement < |stmts| && all[k].handler < |registry|
      {
        assert all[k] == second[k - |first|];
      }
    }
  }

  /** Processing one more visit is one more `Attempt`. */
  lemma RunVisitsSnoc(registry: seq<Handler>, file: string, stmts: seq<Statement>, visits: seq<Visit>, v: Visit, run: Run)
    requires AllWellFormed(stmts) && InRange(registry, stmts, visits + [v])
    ensures InRange(registry, stmts, visits)
    ensures RunVisits(registry, file, stmts, visits + [v], run)
         == Attempt(registry[v.handler], file, stmts[v.statement], RunVisits(registry, file, stmts, visits, run))
  {
    InRangeAppend(registry, stmts, visits, [v]);
    assert (visits + [v])[..|visits|] == visits;
  }

  /** Processing two lists of visits one after the other is processing their concatenation. */
  lemma {:induction false} RunVisitsAppend(registry: seq<Handler>, file: string, stmts: seq<Statement>, first: seq<Visit>, second: seq<Visit>, run: Run)
    requires AllWellFormed(stmts) && InRange(registry, stmts, first) && InRange(registry, stmts, second)
    ensures InRange(registry, stmts, first + second)
    ensures RunVisits(registry, file, stmts, first + second, run)
         == RunVisits(registry, file, stmts, second, RunVisits(registry, file, stmts, first, run))
    decreases |second|
  {
    InRangeAppend(registry, stmts, first, second);
    if |second| == 0 {
      assert first + second == first;
    } else {
      var last := |second| - 1;
      var front, v := second[..last], second[last];
      assert second == front + [v];
      assert first + second == (first + front) + [v];
      InRangeAppend(registry, stmts, first + front, [v]);
      InRangeAppend(registry, stmts, front, [v]);
      RunVisitsAppend(registry, file, stmts, first, front, run);
      RunVisitsSnoc(registry, file, stmts, first + front, v, run);
      RunVisitsSnoc(registry, file, stmts, front, v, RunVisits(registry, file, stmts, first, run));
    }
  }

  /** Visits that only name statements of a prefix run the same on the prefix as on the whole list. */
  lemma {:induction false} RunVisitsPrefix(registry: seq<Handler>, file: string, stmts: seq<Statement>, n: nat, visits: seq<Visit>, run: Run)
    requires AllWellFormed(stmts) && n <= |stmts| && InRange(registry, stmts[..n], visits)
    ensures AllWellFormed(stmts[..n]) && InRange(registry, stmts, visits)
    ensures RunVisits(registry, file, stmts[..n], visits, run) == RunVisits(registry, file, stmts, visits, run)
    decreases |visits|
  {
    assert AllWellFormed(stmts[..n]) by {
      forall k | 0 <= k < n
        ensures WellFormed(stmts[..n][k])
      {
        assert stmts[..n][k] == stmts[k];
      }
    }
    if |visits| > 0 {
      var last := |visits| - 1;
      RunVisitsPrefix(registry, file, stmts, n, visits[..last], run);
      assert stmts[..n][visits[last].statement] == stmts[visits[last].statement];
    }
  }

  /**
   * The visits of statement `i` at registry positions `idx` run exactly the
   * handlers `handlers` on that statement, when those are the registry's
   * handlers at `idx`.
   */
  lemma {:induction false} RunVisitsOfStatement(registry: seq<Handler>, file: string, stmts: seq<Statement>, i: nat,
                                                idx: seq<nat>, handlers: seq<Handler>, run: Run)
    requires AllWellFormed(stmts) && i < |stmts|
    requires |handlers| == |idx|
    requires forall k :: 0 <= k < |idx| ==> idx[k] < |registry| && handlers[k] == registry[idx[k]]
    ensures InRange(registry, stmts, VisitsOf(i, idx))
    ensures RunVisits(registry, file, stmts, VisitsOf(i, idx), run) == RunHandlers(handlers, file, stmts[i], run)
    decreases |idx|
  {
    if |idx| > 0 {
      var last := |idx| - 1;
      RunVisitsOfStatement(registry, file, stmts, i, idx[..last], handlers[..last], run);
      assert VisitsOf(i, idx)[..last] == VisitsOf(i, idx[..last]);
    }
  }

  /**
   * What `top_level_parse` computes is the processing of exactly the
   * matching pairs, in order: the visits `MatchingPairs` lists are the
   * handler runs `Dispatch` performs, one for one.
   */
  lemma {:induction false} DispatchRunsMatchingPairs(registry: seq<Handler>, file: string, stmts: seq<Statement>, run: Run)
    requires AllWellFormed(stmts)
    ensures Dispatch(registry, file, stmts, run) == RunVisits(registry, file, stmts, MatchingPairs(registry, stmts), run)
    decreases |stmts|
  {
    if |stmts| > 0 {
      var last := |stmts| - 1;
      var front := stmts[..last];
      var stmt := stmts[last];
      var older := MatchingPairs(registry, front);
      var idx := MatchingIndices(registry, stmt.tokens);
      var found := FindHandlers(registry, stmt.tokens);
      DispatchRunsMatchingPairs(registry, file, front, run);
      RunVisitsPrefix(registry, file, stmts, last, older, run);
      var prev := RunVisits(registry, file, stmts, older, run);
      FindHandlersIsFilter(registry, stmt.tokens);
      RunVisitsOfStatement(registry, file, stmts, last, idx, found, prev);
      RunVisitsAppend(registry, file, stmts, older, VisitsOf(last, idx), run);
    }
  }

  /**
   * A statement matched by one handler that declares its construct
   * undocumentable without touching the context: the context is unchanged
   * and the log gains two warnings about that handler and line, one of them
   * carrying the message.
   */
  lemma UndocumentableOnlyWarns(handler: Handler, file: string, stmt: Statement, run: Run, message: string)
    requires WellFormed(stmt) && handler.handles(stmt.tokens)
    requires handler.process(file, run.context, stmt) == Undocumentable(run.context, message)
    ensures var r := RunStatement([handler], file, stmt, run);
      && r.context == run.context
      && |r.log| == |run.log| + 2
      && (forall d :: d in r.log[|run.log|..] ==> d.level == Warn && d.handler == handler.name && d.line == LineOf(stmt))
      && Diagnostic(Warn, handler.name, file, LineOf(stmt), UndocumentableNote(message)) in r.log[|run.log|..]
  {
    var outcome := handler.process(file, run.context, stmt);
    ReportClassifies(handler.name, file, LineOf(stmt), outcome);
    assert FindHandlers([handler], stmt.tokens) == [handler];
    assert [handler][..0] == [];
    assert RunHandlers([handler], file, stmt, run) == Attempt(handler, file, stmt, RunHandlers([], file, stmt, run));
    assert RunStatement([handler], file, stmt, run) == Attempt(handler, file, stmt, run);
  }

  /**
   * A statement matched by two handlers where the first raises an unexpected
   * exception and the second makes the visibility private: the second still
   * runs, so the run ends private, and the log gains exactly the first
   * handler's three errors and its debug trace.
   */
  lemma FaultDoesNotStopNextHandler(faulty: Handler, setter: Handler, file: string, stmt: Statement, run: Run)
    requires WellFormed(stmt) && faulty.handles(stmt.tokens) && setter.handles(stmt.tokens)
    requires faulty.process(file, run.context, stmt).Fault?
    requires forall c :: setter.process(file, c, stmt) == Ok(c.(visibility := Private))
    ensures var r := RunStatement([faulty, setter], file, stmt, run);
      && r.context.visibility == Private
      && |r.log| == |run.log| + 4
      && (forall d :: d in r.log[|run.log|..] ==> d.handler == faulty.name && d.line == LineOf(stmt))
      && (forall k :: |run.log| <= k < |run.log| + 3 ==> r.log[k].level == Error)
      && r.log[|run.log| + 3].level == Debug
  {
    var outcome := faulty.process(file, run.context, stmt);
    ReportClassifies(faulty.name, file, LineOf(stmt), outcome);
    assert FindHandlers([faulty, setter], stmt.tokens) == [faulty, setter];
    var mid := Attempt(faulty, file, stmt, run);
    assert [faulty, setter][..1] == [faulty] && [faulty][..0] == [];
    assert RunHandlers([faulty], file, stmt, run) == mid;
    assert RunStatement([faulty, setter], file, stmt, run) == Attempt(setter, file, stmt, mid);
  }
}
