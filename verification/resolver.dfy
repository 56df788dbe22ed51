/**
 * `SourceParser#find_handlers`: the registered handler classes whose
 * `handles?` predicate accepts a statement's tokens, in registry order.
 */
module Resolver {
  import opened ParserTypes

  /** The handlers of `registry` that accept `tokens`, as `find_all` returns them. */
  function FindHandlers(registry: seq<Handler>, tokens: seq<Token>): (found: seq<Handler>)
    ensures |found| <= |registry|
    ensures forall k :: 0 <= k < |found| ==> found[k].handles(tokens)
    decreases |registry|
  {
    if |registry| == 0 then []
    else if registry[0].handles(tokens) then [registry[0]] + FindHandlers(registry[1..], tokens)
    else FindHandlers(registry[1..], tokens)
  }

  predicate Increasing(s: seq<nat>) {
    forall a, b :: 0 <= a < b < |s| ==> s[a] < s[b]
  }

  /** The positions, from `from` on, of the registry's handlers that accept `tokens`. */
  function MatchingFrom(registry: seq<Handler>, tokens: seq<Token>, from: nat): (idx: seq<nat>)
    requires from <= |registry|
    ensures forall k :: 0 <= k < |idx| ==> from <= idx[k] < |registry|
    decreases |registry| - from
  {
    if from == |registry| then []
    else if registry[from].handles(tokens) then [from] + MatchingFrom(registry, tokens, from + 1)
    else MatchingFrom(registry, tokens, from + 1)
  }

  /** The positions of all handlers of the registry that accept `tokens`. */
  function MatchingIndices(registry: seq<Handler>, tokens: seq<Token>): (idx: seq<nat>)
    ensures forall k :: 0 <= k < |idx| ==> idx[k] < |registry|
  {
    MatchingFrom(registry, tokens, 0)
  }

  /** The matching positions from `from` on are ascending. */
  lemma {:induction false} MatchingFromIncreasing(registry: seq<Handler>, tokens: seq<Token>, from: nat)
    requires from <= |registry|
    ensures Increasing(MatchingFrom(registry, tokens, from))
    decreases |registry| - from
  {
    if from < |registry| {
      MatchingFromIncreasing(registry, tokens, from + 1);
    }
  }

  /** Each matching position from `from` on names a handler that accepts the tokens. */
  lemma {:induction false} MatchingFromSound(registry: seq<Handler>, tokens: seq<Token>, from: nat)
    requires from <= |registry|
    ensures forall k :: 0 <= k < |MatchingFrom(registry, tokens, from)| ==>
              registry[MatchingFrom(registry, tokens, from)[k]].handles(tokens)
    decreases |registry| - from
  {
    if from < |registry| {
      MatchingFromSound(registry, tokens, from + 1);
    }
  }

  /** The position, from `from` on, of every handler that accepts the tokens is a matching position. */
  lemma {:induction false} MatchingFromComplete(registry: seq<Handler>, tokens: seq<Token>, from: nat)
    requires from <= |registry|
    ensures forall j :: from <= j < |registry| && registry[j].handles(tokens) ==>
              j in MatchingFrom(registry, tokens, from)
    decreases |registry| - from
  {
    if from < |registry| {
      MatchingFromComplete(registry, tokens, from + 1);
    }
  }

  /** The matching positions are ascending and are exactly those of the handlers that accept the tokens. */
  lemma MatchingIndicesExact(registry: seq<Handler>, tokens: seq<Token>)
    ensures Increasing(MatchingIndices(registry, tokens))
    ensures forall k :: 0 <= k < |MatchingIndices(registry, tokens)| ==>
              registry[MatchingIndices(registry, tokens)[k]].handles(tokens)
    ensures forall j :: 0 <= j < |registry| && registry[j].handles(tokens) ==>
              j in MatchingIndices(registry, tokens)
  {
    MatchingFromIncreasing(registry, tokens, 0);
    MatchingFromSound(registry, tokens, 0);
    MatchingFromComplete(registry, tokens, 0);
  }

  lemma {:induction false} FindHandlersFrom(registry: seq<Handler>, tokens: seq<Token>, from: nat)
    requires from <= |registry|
    ensures |FindHandlers(registry[from..], tokens)| == |MatchingFrom(registry, tokens, from)|
    ensures forall k :: 0 <= k < |MatchingFrom(registry, tokens, from)| ==>
              FindHandlers(registry[from..], tokens)[k] == registry[MatchingFrom(registry, tokens, from)[k]]
    decreases |registry| - from
  {
    if from < |registry| {
      FindHandlersFrom(registry, tokens, from + 1);
      assert registry[from..][1..] == registry[from + 1..];
    }
  }

  /**
   * `find_handlers` is exactly a filter of the registry: its k-th handler is
   * the registry's handler at the k-th matching position, so it keeps registry
   * order, adds nothing and drops no handler that accepts the tokens.
   */
  lemma FindHandlersIsFilter(registry: seq<Handler>, tokens: seq<Token>)
    ensures |FindHandlers(registry, tokens)| == |MatchingIndices(registry, tokens)|
    ensures forall k :: 0 <= k < |MatchingIndices(registry, tokens)| ==>
              FindHandlers(registry, tokens)[k] == registry[MatchingIndices(registry, tokens)[k]]
    ensures forall j :: 0 <= j < |registry| && registry[j].handles(tokens) ==>
              registry[j] in FindHandlers(registry, tokens)
    ensures FindHandlers(registry, tokens) == [] <==>
              forall j :: 0 <= j < |registry| ==> !registry[j].handles(tokens)
  {
    FindHandlersFrom(registry, tokens, 0);
    MatchingIndicesExact(registry, tokens);
    assert registry[0..] == registry;
    var found, idx := FindHandlers(registry, tokens), MatchingIndices(registry, tokens);
    forall j | 0 <= j < |registry| && registry[j].handles(tokens)
      ensures registry[j] in found
    {
      var k :| 0 <= k < |idx| && idx[k] == j;
      assert found[k] == registry[j];
    }
  }
}
