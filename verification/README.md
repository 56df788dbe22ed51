# YARD SourceParser: statement dispatch, modelled in Dafny

This project models the statement-dispatch core of YARD's Ruby source
parser, `YARD::Parser::SourceParser` (`lib/yard/parser/source_parser.rb`).
A parser holds a traversal context: the file label, the current namespace,
visibility, scope and owner. `parse` takes the statements from a file path, a
token list, a statement list or any readable object, and raises
`ArgumentError` for anything else. `top_level_parse` then walks the
statements in order. For each statement it runs every registered handler
whose `handles?` predicate accepts the statement's tokens (`find_handlers`),
in registry order. Every handler sees the context the previous one left.
Each run sits inside its own `begin`/`rescue` block:

- an `UndocumentableError` is logged as warnings;
- any other exception is logged as errors plus a debug stack trace of at most six frames;
- in both cases the loop goes on.

The `handles?` calls of `find_handlers` run outside these blocks; an exception there is not isolated (see "## Left out").

Files:

- `parser_types.dfy` (module `ParserTypes`): the context, tokens and statements, handlers and their outcomes, log records.
- `resolver.dfy` (module `Resolver`): `find_handlers` as a function, and lemmas proving it is exactly an order-preserving filter of the registry.
- `dispatch.dfy` (module `Dispatching`): the meaning of the dispatch loop as pure functions, and lemmas about them:
  - failure classification;
  - context continuity;
  - unmatched statements being skipped;
  - attribution of every log record;
  - each matching (statement, handler) pair visited exactly once.
- `source_parser.dfy` (module `SourceParsing`): the `SourceParser` class. It has the context fields and the log as mutable state, a constructor, `Parse`, and `TopLevelParse` as two nested `while` loops. The loops are proved to compute the dispatch function and to visit exactly the matching pairs.

Handlers are values: a name, a `handles?` predicate over tokens, and the
effect of constructing and processing one. That effect is a function from the
file label, the context and the statement to an `Outcome`. The outcome says
whether processing succeeded, hit an undocumentable construct or raised
another exception. Every outcome carries the context as the handler left it,
because changes a handler makes before raising are not undone by the rescue.

What the rescue blocks write:

- An undocumentable construct produces two warn lines: the message, then the file, line and statement rendering.
- Any other exception produces three error lines (header, message, location), then one debug line with the trace.
- Input of an unsupported kind raises `ArgumentError`.

Each record in the model is tagged with the handler, file and line of the
attempt that wrote it. The source's lines do not each print all three: the
tags say which rescue block a line came from.

## Model

| member | source | states |
|---|---|---|
| Resolver.FindHandlers | lib/yard/parser/source_parser.rb:71-73 | the handlers returned are no more than the registry holds, and each accepts the statement's tokens |
| Resolver.MatchingIndicesExact | lib/yard/parser/source_parser.rb:72 | the matching positions are strictly ascending; each names a handler whose `handles?` holds; every handler whose `handles?` holds has its position among them |
| Resolver.FindHandlersIsFilter | lib/yard/parser/source_parser.rb:71-73 | `find_handlers` is exactly the registry filtered by `handles?`: its k-th element is the registry's handler at the k-th matching position, so registry order is kept, nothing is added, no accepting handler is dropped, and the result is empty exactly when no handler accepts |
| Dispatching.Report | lib/yard/parser/source_parser.rb:58-65 | the records one rescue block writes: none on success, two for an undocumentable construct, four for any other exception (the line they carry is `LineOf`, the first token's `line_no`, lines 60 and 64) |
| Dispatching.Attempt | lib/yard/parser/source_parser.rb:56-66 | one `begin`/`rescue` block only appends to the log, at most four records |
| Dispatching.RunHandlers | lib/yard/parser/source_parser.rb:55-67 | the inner loop only appends to the log, at most four records per handler |
| Dispatching.RunStatement | lib/yard/parser/source_parser.rb:54-55 | one statement's handlers only append to the log, at most four records per registered handler |
| Dispatching.Dispatch | lib/yard/parser/source_parser.rb:53-69 | a whole run only appends to the log |
| Dispatching.MatchingPairs | lib/yard/parser/source_parser.rb:53-57 | every listed visit names a statement of the list and a handler of the registry |
| Dispatching.TraceHead | lib/yard/parser/source_parser.rb:65 | the debug trace is a prefix of the backtrace of length min(6, its length) |
| Dispatching.ReportClassifies | lib/yard/parser/source_parser.rb:56-65 | a successful handler logs nothing. An undocumentable construct logs warnings only (no error or debug record), including one carrying its message. Any other exception logs errors, including one carrying its message, and ends with one debug record of at most six frames. Every record is tagged with the handler, file and line of the attempt; an undocumentable construct writes exactly two records, any other exception exactly four |
| Dispatching.DispatchAppend | lib/yard/parser/source_parser.rb:53-57 | the context is never reset: dispatching two statement lists one after the other equals dispatching their concatenation |
| Dispatching.UnmatchedStatementIsSkipped | lib/yard/parser/source_parser.rb:53-73 | a statement no registered handler accepts leaves the context and the log unchanged |
| Dispatching.NoMatchesChangeNothing | lib/yard/parser/source_parser.rb:53-73 | if no handler accepts any statement (in particular with no handlers, or no statements), a run leaves context and log unchanged, so a fresh parser keeps its defaults |
| Dispatching.AttemptLogAttributed | lib/yard/parser/source_parser.rb:56-65 | one handler attempt only appends to the log, and each record it adds is tagged with that handler's name, the file and that statement's line, and is therefore attributed within the run |
| Dispatching.HandlersLogAttributed | lib/yard/parser/source_parser.rb:55-66 | running the handlers that accept one statement only appends to the log, and every added record is tagged with the file, that statement's line and the name of one of the handlers run, and is therefore attributed within the run |
| Dispatching.DispatchLogAttributed | lib/yard/parser/source_parser.rb:53-69 | a whole run only appends to the log. Every record it adds is about the run's file and a registered handler that accepts one of the statements, at that statement's line, with a trace of at most six frames |
| Dispatching.MatchingPairsSound | lib/yard/parser/source_parser.rb:53-57 | every visited (statement, handler) pair is one where the handler accepts the statement |
| Dispatching.MatchingPairsComplete | lib/yard/parser/source_parser.rb:53-57 | every (statement, handler) pair where the handler accepts the statement is visited |
| Dispatching.MatchingPairsOrdered | lib/yard/parser/source_parser.rb:53-57 | visits come statement by statement, and by registry position within a statement |
| Dispatching.MatchingPairsExactlyOnce | lib/yard/parser/source_parser.rb:53-57 | the visits are exactly the matching pairs, in strictly increasing dispatch order, so none is repeated or skipped. They depend only on statements and registry, never on handler outcomes |
| Dispatching.RunVisitsAppend | lib/yard/parser/source_parser.rb:53-57 | processing two lists of (statement, handler) visits one after the other equals processing their concatenation |
| Dispatching.DispatchRunsMatchingPairs | lib/yard/parser/source_parser.rb:53-69 | what a run computes is processing exactly the visits `MatchingPairs` lists, in that order, each handler on its statement: the handlers run are one for one the matching pairs |
| Dispatching.UndocumentableOnlyWarns | lib/yard/parser/source_parser.rb:56-60 | one handler raising `UndocumentableError` without touching the context: the context is unchanged, and the log gains exactly two records, both warnings for that handler and line, and one of those two added records carries the message |
| Dispatching.FaultDoesNotStopNextHandler | lib/yard/parser/source_parser.rb:55-65 | two accepting handlers, the first raising an unexpected exception and the second making visibility private: the run ends private, and the log gains only the first handler's three errors and its debug trace |
| SourceParsing.SourceParser.constructor | lib/yard/parser/source_parser.rb:19-25 | a fresh parser has label `<STDIN>`, namespace and owner both the registry root, public visibility, instance scope, and an empty log |
| SourceParsing.SourceParser.Parse | lib/yard/parser/source_parser.rb:32-50 | the statements come from the source path (which also becomes the file label), the token list, the statement list unchanged, or the text read. Any other input is an `ArgumentError` with the parser left untouched and nothing visited. Otherwise the statements are dispatched as `TopLevelParse` states |
| SourceParsing.SourceParser.ProcessHandler | lib/yard/parser/source_parser.rb:56-66 | one `begin`/`rescue` block: the new context and log are those of `Attempt`, and the file label is untouched |
| SourceParsing.SourceParser.TopLevelParse | lib/yard/parser/source_parser.rb:53-69 | the nested loops leave the context and log equal to `Dispatch` of the statements from the old state, keep the file label, and visit exactly `MatchingPairs`; the handler processed at each visit is the registry's handler at that visit's position, so the final state is also the processing of exactly the visits made |

## Left out

- File and stream input are not modelled: `IO.read`, `StringIO`, the object's own `read`, and the class-level `parse` and `parse_string` wrappers. Reading is a function parameter of `Parse` (`Frontend.readFile`), and the readable object is represented by the text it returns.
- A failed read is not modelled. The source sets the file label before reading, so a missing file leaves the label changed and raises out of `parse`. The model's read is total.
- Lexing and statement grouping (`StatementList.new`, `TokenList`) are not modelled. They are function parameters of `Parse`, assumed to produce statements that are never empty.
- Handler discovery is not modelled: `Handlers::Base.subclasses` enumerates classes by reflection. The model uses a fixed handler sequence given to the constructor.
- `YARD::Registry.root` is the abstract value `Root`.
- What handlers do to the documentation registry is not modelled. A handler is only a function from file label, context and statement to an outcome.
- Exact log text is not modelled: message strings, `stmt.inspect` rendering and backtrace formatting. Records keep the level, the message and the kept frames, plus the handler, file and line tags of the attempt that wrote them.
- YARD's logger is global and filters records by level. The model keeps every record, in order, in a `log` field of the parser.
- The default argument of `parse` (the parser's own source file, `__FILE__`) is not modelled. The path is always passed explicitly.
- Statements with no tokens are excluded by a precondition. In the source, the rescue paths read `stmt.tokens.first.line_no`, which would raise on such a statement.
- An exception whose backtrace is `nil` is not modelled. Backtraces are sequences of frames.
- Exceptions outside Ruby's `StandardError` (a bare `rescue => e` does not catch them) are not modelled. Such an exception would propagate out of `top_level_parse`. Every handler outcome in the model is success, undocumentable or a rescued fault.
- Exceptions raised by a handler's `handles?` predicate are not modelled: `handles` is a total predicate. In the source, `find_handlers` calls `handles?` on line 55 (through line 72), before the `begin` of line 56, so such an exception is not rescued. It ends `top_level_parse` and `parse`, and the later statements are never processed. The isolation of failures described above applies only to `handler.new(self, stmt).process`.
- Handlers are assumed not to write to the log and not to call back into the parser. In the source a handler receives the parser itself and can reach YARD's global logger, so it could log directly or parse a nested block, and those records would land in the same log. `Dispatching.DispatchLogAttributed`, `Dispatching.HandlersLogAttributed`, `Dispatching.UndocumentableOnlyWarns` and `Dispatching.FaultDoesNotStopNextHandler` depend on this assumption: their claims that the log gains only the rescue blocks' records hold only for handlers that do neither.
- Records carry provenance tags (handler, file, line) on every record. The source prints the handler on some lines and the file and line on others. The attribution lemmas (`Dispatching.AttemptLogAttributed`, `Dispatching.HandlersLogAttributed`, `Dispatching.DispatchLogAttributed`) are about these tags. In the source they hold per rescue block, not per printed line.
- Resolver.FindHandlers: its own contract gives only the bound and that each returned handler accepts the tokens. The full filter property is `Resolver.FindHandlersIsFilter`.
- The value `parse` returns is modelled as `Parsed` of the statements. In Ruby, `each` returns its receiver, so `top_level_parse` returns the statement list; this holds if `StatementList` is an `Array`, and that class is not part of this model.
