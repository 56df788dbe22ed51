/**
 * The values the statement-dispatch core of YARD's SourceParser works on:
 * the traversal context, tokens and statements, handlers with the outcome
 * of running one, and the leveled diagnostic records written to the log.
 */
module ParserTypes {

  /** The `visibility` accessor: `:public`, `:protected` or `:private`. */
  datatype Visibility = Public | Protected | Private

  /** The `scope` accessor: `:instance` or `:class`. */
  datatype Scope = Instance | Class

  /**
   * A reference to an object of the documentation registry, as held by the
   * `namespace` and `owner` accessors. `Root` stands for `Registry.root`.
   */
  datatype CodeObject = Root | Named(path: string)

  /** The four fields a handler may read and rebind through the parser. */
  datatype Context = Context(namespace: CodeObject, visibility: Visibility, scope: Scope, owner: CodeObject)

  /** The context of a freshly constructed parser. */
  const DefaultContext := Context(Root, Public, Instance, Root)

  /** The file label of a parser that has not been given a path. */
  const StdinLabel := "<STDIN>"

  /** A lexical unit; only its line number is read by the core. */
  datatype Token = Token(kind: string, text: string, lineNo: nat)

  /** One logical statement: the tokens it was grouped from. */
  datatype Statement = Statement(tokens: seq<Token>)

  /** Statements built by the statement grouper are never empty. */
  predicate WellFormed(stmt: Statement) {
    |stmt.tokens| > 0
  }

  predicate AllWellFormed(stmts: seq<Statement>) {
    forall k :: 0 <= k < |stmts| ==> WellFormed(stmts[k])
  }

  /** A concatenation of statement lists is well formed exactly when both parts are. */
  lemma AllWellFormedAppend(first: seq<Statement>, second: seq<Statement>)
    ensures AllWellFormed(first + second) <==> AllWellFormed(first) && AllWellFormed(second)
  {
    var all := first + second;
    if AllWellFormed(first) && AllWellFormed(second) {
      forall k | 0 <= k < |all|
        ensures WellFormed(all[k])
      {
        if k >= |first| {
          assert all[k] == second[k - |first|];
        }
      }
    }
    if AllWellFormed(all) {
      forall k | 0 <= k < |first|
        ensures WellFormed(first[k])
      {
        assert all[k] == first[k];
      }
      forall k | 0 <= k < |second|
        ensures WellFormed(second[k])
      {
        assert all[|first| + k] == second[k];
      }
    }
  }

  /** The line a diagnostic reports for a statement: that of its first token. */
  function LineOf(stmt: Statement): nat
    requires WellFormed(stmt)
  {
    stmt.tokens[0].lineNo
  }

  /**
   * How constructing and processing one handler ended. Every variant carries
   * the context as the handler left it: a handler rebinds the parser's fields
   * while it runs, and changes made before an exception are not undone.
   */
  datatype Outcome =
    | Ok(after: Context)
    | Undocumentable(after: Context, message: string)
    | Fault(after: Context, message: string, backtrace: seq<string>)

  /**
   * A registered handler class: its name (`handler.to_s`), its `handles?`
   * predicate over a statement's tokens, and the effect of
   * `handler.new(parser, stmt).process`, which sees the parser's file label
   * and context and the statement.
   */
  datatype Handler = Handler(
    name: string,
    handles: seq<Token> -> bool,
    process: (string, Context, Statement) -> Outcome)

  datatype Level = Warn | Error | Debug

  /** Which of the source's log lines a record stands for. */
  datatype Detail =
    | UndocumentableNote(message: string)  // "in <handler>: Undocumentable <message>"
    | UnhandledException                   // "Unhandled exception in <handler>:"
    | ErrorMessage(message: string)        // the exception's message
    | StatementLocation                    // file, line and the statement's rendering
    | StackTrace(frames: seq<string>)      // the head of the backtrace

  /** A log record, with the handler, file and line it is about. */
  datatype Diagnostic = Diagnostic(level: Level, handler: string, file: string, line: nat, detail: Detail)
}
