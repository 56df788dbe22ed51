/**
 * YARD's `SourceParser` as a class: the file label and the four context
 * accessors as fields, `parse` choosing where the statements come from, and
 * `top_level_parse` as two nested loops proved to compute `Dispatch` and to
 * process exactly the (statement, handler) pairs `MatchingPairs` lists.
 */
module SourceParsing {
  import opened ParserTypes
  import opened Resolver
  import opened Dispatching

  /** What `parse` can be given, told apart as its `case` does. */
  datatype Content =
    | SourcePath(path: string)                   // a String: the path of a file to read
    | TokenList(tokens: seq<Token>)              // a TokenList
    | StatementList(statements: seq<Statement>)  // a StatementList
    | Readable(text: string)                     // any other object responding to `read`; `text` is what `read` returns
    | Unsupported(description: string)           // anything else

  /**
   * The collaborators `parse` hands its input to: reading a file
   * (`IO.read`), and building a statement list from source text or from a
   * token list (`StatementList.new`).
   */
  datatype Frontend = Frontend(
    readFile: string -> string,
    statementsOfText: string -> seq<Statement>,
    statementsOfTokens: seq<Token> -> seq<Statement>)

  /** What `parse` returns (the statements it dispatched), or the `ArgumentError` it raises. */
  datatype ParseResult = Parsed(statements: seq<Statement>) | ArgumentError(description: string)

  /** One more handler in a loop over `handlers` is one more `Attempt`. */
  lemma RunHandlersStep(handlers: seq<Handler>, file: string, stmt: Statement, run: Run, j: nat)
    requires WellFormed(stmt) && j <= |handlers|
    ensures j < |handlers| ==>
              RunHandlers(handlers[..j + 1], file, stmt, run) == Attempt(handlers[j], file, stmt, RunHandlers(handlers[..j], file, stmt, run))
    ensures RunHandlers(handlers[..|handlers|], file, stmt, run) == RunHandlers(handlers, file, stmt, run)
  {
    if j < |handlers| {
      assert handlers[..j + 1][..j] == handlers[..j];
    }
    assert handlers[..|handlers|] == handlers;
  }

  /** One more handler in a loop over `handlers` is one more visit. */
  lemma VisitsStep(i: nat, idx: seq<nat>, j: nat)
    requires j <= |idx|
    ensures j < |idx| ==> VisitsOf(i, idx[..j + 1]) == VisitsOf(i, idx[..j]) + [Visit(i, idx[j])]
    ensures VisitsOf(i, idx[..|idx|]) == VisitsOf(i, idx)
  {
    if j < |idx| {
      assert idx[..j + 1][..j] == idx[..j];
    }
    assert idx[..|idx|] == idx;
  }

  /** One more statement in a loop over `stmts` is one more `RunStatement` and its visits. */
  lemma DispatchStep(registry: seq<Handler>, file: string, stmts: seq<Statement>, run: Run, i: nat)
    requires AllWellFormed(stmts) && i < |stmts|
    ensures AllWellFormed(stmts[..i]) && AllWellFormed(stmts[..i + 1])
    ensures Dispatch(registry, file, stmts[..i + 1], run) == RunStatement(registry, file, stmts[i], Dispatch(registry, file, stmts[..i], run))
    ensures MatchingPairs(registry, stmts[..i + 1]) == MatchingPairs(registry, stmts[..i]) + VisitsOf(i, MatchingIndices(registry, stmts[i].tokens))
  {
    assert stmts[..i + 1][..i] == stmts[..i];
  }

  class SourceParser {
    /** The registered handler classes, in the order `Handlers::Base.subclasses` lists them. */
    const handlers: seq<Handler>
    var file: string
    var namespace: CodeObject
    var visibility: Visibility
    var scope: Scope
    var owner: CodeObject
    /** The records written to YARD's logger, oldest first. */
    var log: seq<Diagnostic>

    /** The four accessor fields as one value. */
    function CurrentContext(): Context
      reads this
    {
      Context(namespace, visibility, scope, owner)
    }

    /** `initialize`: label `<STDIN>`, the root namespace as namespace and owner, public, instance. */
    constructor (handlers: seq<Handler>)
      ensures this.handlers == handlers
      ensures file == StdinLabel
      ensures CurrentContext() == DefaultContext && owner == namespace
      ensures log == []
    {
      this.handlers := handlers;
      file := StdinLabel;
      namespace := Root;
      visibility := Public;
      scope := Instance;
      owner := namespace;
      log := [];
    }

    /**
     * `parse`: takes the statements from a file path (which also becomes the
     * file label), a token list, a statement list or a readable object, and
     * dispatches them; anything else is an `ArgumentError` raised before any
     * statement is looked at.
     */
    method Parse(content: Content, frontend: Frontend) returns (r: ParseResult, ghost visits: seq<Visit>)
      requires content.SourcePath? ==> AllWellFormed(frontend.statementsOfText(frontend.readFile(content.path)))
      requires content.TokenList? ==> AllWellFormed(frontend.statementsOfTokens(content.tokens))
      requires content.StatementList? ==> AllWellFormed(content.statements)
      requires content.Readable? ==> AllWellFormed(frontend.statementsOfText(content.text))
      modifies this
      ensures r.ArgumentError? <==> content.Unsupported?
      ensures r.ArgumentError? ==> unchanged(this) && visits == []
      ensures content.SourcePath? ==> file == content.path && r == Parsed(frontend.statementsOfText(frontend.readFile(content.path)))
      ensures !content.SourcePath? ==> file == old(file)
      ensures content.TokenList? ==> r == Parsed(frontend.statementsOfTokens(content.tokens))
      ensures content.StatementList? ==> r == Parsed(content.statements)
      ensures content.Readable? ==> r == Parsed(frontend.statementsOfText(content.text))
      ensures r.Parsed? ==>
                && AllWellFormed(r.statements)
                && Run(CurrentContext(), log) == Dispatch(handlers, file, r.statements, Run(old(CurrentContext()), old(log)))
                && visits == MatchingPairs(handlers, r.statements)
    {
      match content {
        case SourcePath(path) =>
          file := path;
          r := Parsed(frontend.statementsOfText(frontend.readFile(path)));
        case TokenList(tokens) =>
          r := Parsed(frontend.statementsOfTokens(tokens));
        case StatementList(statements) =>
          r := Parsed(statements);
        case Readable(text) =>
          r := Parsed(frontend.statementsOfText(text));
        case Unsupported(description) =>
          return ArgumentError(description), [];
      }
      visits := TopLevelParse(r.statements);
    }

    /**
     * One `begin`/`rescue` block of `top_level_parse`: the handler is
     * processed on the statement with the parser's context, whatever it left
     * in the context stays, and an undocumentable construct or any other
     * exception is logged instead of propagated.
     */
    method ProcessHandler(handler: Handler, stmt: Statement)
      requires WellFormed(stmt)
      modifies this
      ensures file == old(file)
      ensures Run(CurrentContext(), log) == Attempt(handler, file, stmt, Run(old(CurrentContext()), old(log)))
    {
      var outcome := handler.process(file, CurrentContext(), stmt);
      namespace, visibility, scope, owner := outcome.after.namespace, outcome.after.visibility, outcome.after.scope, outcome.after.owner;
      log := log + Report(handler.name, file, LineOf(stmt), outcome);
    }

    /**
     * `top_level_parse`: for each statement in order, every handler
     * `find_handlers` returns is constructed and processed on it with the
     * parser's current context; an undocumentable construct or any other
     * exception is logged and the loops go on.
     */
    method TopLevelParse(statements: seq<Statement>) returns (ghost visits: seq<Visit>)
      requires AllWellFormed(statements)
      modifies this
      ensures file == old(file)
      ensures Run(CurrentContext(), log) == Dispatch(handlers, file, statements, Run(old(CurrentContext()), old(log)))
      ensures visits == MatchingPairs(handlers, statements)
      ensures Run(CurrentContext(), log) == RunVisits(handlers, file, statements, visits, Run(old(CurrentContext()), old(log)))
    {
      ghost var start := Run(CurrentContext(), log);
      visits := [];
      var i := 0;
      while i < |statements|
        invariant 0 <= i <= |statements|
        invariant file == old(file)
        invariant Run(CurrentContext(), log) == Dispatch(handlers, file, statements[..i], start)
        invariant visits == MatchingPairs(handlers, statements[..i])
      {
        var stmt := statements[i];
        var found := FindHandlers(handlers, stmt.tokens);
        ghost var idx := MatchingIndices(handlers, stmt.tokens);
        FindHandlersIsFilter(handlers, stmt.tokens);
        DispatchStep(handlers, file, statements, start, i);
        ghost var before := Run(CurrentContext(), log);
        ghost var visited := [];
        var j := 0;
        while j < |found|
          invariant 0 <= j <= |found|
          invariant file == old(file)
          invariant Run(CurrentContext(), log) == RunHandlers(found[..j], file, stmt, before)
          invariant visited == VisitsOf(i, idx[..j])
          invariant forall k :: 0 <= k < |found| ==> found[k] == handlers[idx[k]]
        {
          ProcessHandler(found[j], stmt);
          visited := visited + [Visit(i, idx[j])];
          RunHandlersStep(found, file, stmt, before, j);
          VisitsStep(i, idx, j);
          j := j + 1;
        }
        RunHandlersStep(found, file, stmt, before, 0);
        VisitsStep(i, idx, 0);
        visits := visits + visited;
        i := i + 1;
      }
      assert statements[..i] == statements;
      DispatchRunsMatchingPairs(handlers, file, statements, start);
    }
  }
}
