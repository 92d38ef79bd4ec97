/** What the condition of a Switch step asks of the initial request. */
module Conditions {
  import opened Graph
  import opened Payload
  import opened Semantics
  import opened Text
  import opened SwitchRoutes

  /** The string found under a path of the request; empty if there is none. */
  function StringAt(w: World, init: Bytes, path: string): string {
    match w.query(init, path)
    case Some(found) => found
    case None => ""
  }

  /** Neither names nested data nor is a query. */
  predicate Flat(s: string) {
    '.' !in s && '#' !in s
  }

  lemma InvalidMatchesNothing(w: World, init: Bytes, condition: string)
    requires !w.valid(init)
    ensures !PicksRoute(w, init, condition)
  {
  }

  lemma FoundMatches(w: World, init: Bytes, condition: string)
    requires w.valid(init) && w.query(init, condition).Some?
    ensures PicksRoute(w, init, condition)
  {
  }

  lemma FirstEquals(key: string, value: string)
    requires '=' !in key
    ensures FindEquals(key + "==" + value, 0) == Some(|key|)
    ensures (key + "==" + value)[..|key|] == key && (key + "==" + value)[|key| + 2..] == value
  {
    var s := key + "==" + value;
    assert s[|key|] == '=' && s[|key| + 1] == '=';
    forall k | 0 <= k < |key|
      ensures s[k] != '='
    {
      assert s[k] == key[k];
    }
  }

  /**
    A condition key==value matches just if the request holds the value under the key, both trimmed; in
    particular a missing key matches an empty value.
   */
  lemma KeyedMatches(w: World, init: Bytes, key: string, value: string)
    requires w.valid(init) && w.query(init, key + "==" + value).None?
    requires Flat(key) && Flat(value) && '=' !in key
    ensures PicksRoute(w, init, key + "==" + value) <==> StringAt(w, init, w.trim(key)) == w.trim(value)
  {
    FirstEquals(key, value);
    var s := key + "==" + value;
    forall k | 0 <= k < |s|
      ensures s[k] != '.' && s[k] != '#'
    {
      assert s[k] == if k < |key| then key[k] else if k < |key| + 2 then '=' else value[k - |key| - 2];
    }
  }

  predicate HasEquals(s: string) {
    exists k :: 0 <= k < |s| - 1 && s[k] == '=' && s[k + 1] == '='
  }

  /** Any other condition matches by the query alone. */
  lemma OthersMatchByQuery(w: World, init: Bytes, condition: string)
    requires !Flat(condition) || !HasEquals(condition)
    ensures PicksRoute(w, init, condition) <==> w.valid(init) && w.query(init, condition).Some?
  {
    assert FindEquals(condition, 0).Some? ==> HasEquals(condition);
  }

  /** The steps of a node ask for different values under one key of a request that has to be looked up. */
  ghost predicate Keyed(c: Ctx, steps: seq<Step>, key: string, values: seq<string>) {
    && c.w.valid(c.init) && |values| == |steps| && Flat(key) && '=' !in key
    && (forall i :: 0 <= i < |steps| ==>
         && !steps[i].downstream && steps[i].condition == key + "==" + values[i]
         && Flat(values[i]) && c.w.query(c.init, steps[i].condition).None?)
    && (forall i, j :: 0 <= i < j < |steps| ==> c.w.trim(values[i]) != c.w.trim(values[j]))
  }

  lemma KeyedStep(c: Ctx, steps: seq<Step>, key: string, values: seq<string>, i: nat)
    requires Keyed(c, steps, key, values) && i < |steps|
    ensures Matches(c, steps[i]) <==> StringAt(c.w, c.init, c.w.trim(key)) == c.w.trim(values[i])
  {
    KeyedMatches(c.w, c.init, key, values[i]);
    assert (key + "==" + values[i])[|key|] == '=';
  }

  /** Different values under one key exclude each other: the node is a switch on that key. */
  lemma KeyedSwitch(c: Ctx, n: string, key: string, values: seq<string>, input: Bytes, past: Trace, j: nat)
    requires Acyclic(c.g) && c.g.Node(n).kind.Switch? && DecodeObject(c.init).Some?
    requires Keyed(c, c.g.Node(n).steps, key, values)
    ensures
      var steps, held := c.g.Node(n).steps, StringAt(c.w, c.init, c.w.trim(key));
      && ((forall k :: 0 <= k < |steps| ==> held != c.w.trim(values[k])) ==> Route(c, n, input, past) == Run([], Answer(None, 0)))
      && (j < |steps| && held == c.w.trim(values[j]) ==>
           var request := if steps[j].data == "$response" && j > 0 then EMPTY else input;
           var sub := Execute(c, steps[j], request, past);
           Route(c, n, input, past) == Run(sub.calls, if sub.out.Fault? then Fault(500, sub.out.err) else sub.out))
  {
    var steps := c.g.Node(n).steps;
    forall k | 0 <= k < |steps|
      ensures Matches(c, steps[k]) <==> StringAt(c.w, c.init, c.w.trim(key)) == c.w.trim(values[k])
    {
      KeyedStep(c, steps, key, values, k);
    }
    ExclusiveSwitchRunsOne(c, n, input, past, j);
  }
}
