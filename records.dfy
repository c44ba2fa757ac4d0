/**
 * The loop shared by List (server.go:74-81), ServerGroups
 * (servergroups.go:40-56) and Tokenslist (privilegekey.go:76-84): parse
 * each `|`-separated record in order and stop at the first that fails.
 * The record parser is a parameter, so the loop and its lemmas are stated
 * once for all three.
 */
module Records {
  import opened Wrappers

  /**
   * The parser can be applied to every record it reaches: each record up
   * to and including the first one that fails. (The source panics on a
   * record it cannot index into.)
   */
  ghost predicate SafeUntilFailure<V, E>(parse: string --> Result<V, E>, recs: seq<string>)
    decreases |recs|
  {
    |recs| == 0 || (parse.requires(recs[0]) && (parse(recs[0]).Ok? ==> SafeUntilFailure(parse, recs[1..])))
  }

  /** The values of the records in order, up to the first failure, and that failure. */
  function ParseEach<V, E>(parse: string --> Result<V, E>, recs: seq<string>): (r: (seq<V>, Option<E>))
    requires SafeUntilFailure(parse, recs)
    ensures |r.0| <= |recs|
    ensures r.1.None? <==> |r.0| == |recs|
    decreases |recs|
  {
    if |recs| == 0 then ([], None)
    else
      match parse(recs[0])
      case Err(e) => ([], Some(e))
      case Ok(v) =>
        var rest := ParseEach(parse, recs[1..]);
        ([v] + rest.0, rest.1)
  }

  /** The loop itself, proved against ParseEach. */
  method ParseLoop<V, E>(parse: string --> Result<V, E>, recs: seq<string>) returns (vs: seq<V>, err: Option<E>)
    requires SafeUntilFailure(parse, recs)
    ensures (vs, err) == ParseEach(parse, recs)
  {
    vs := [];
    var i := 0;
    assert recs[i..] == recs;
    assert vs + ParseEach(parse, recs).0 == ParseEach(parse, recs).0;
    while i < |recs|
      invariant 0 <= i <= |recs|
      invariant SafeUntilFailure(parse, recs[i..])
      invariant ParseEach(parse, recs) == (vs + ParseEach(parse, recs[i..]).0, ParseEach(parse, recs[i..]).1)
      decreases |recs| - i
    {
      var rest := recs[i..];
      assert rest[0] == recs[i] && rest[1..] == recs[i + 1..];
      var r := parse(recs[i]);
      if r.Err? {
        assert vs + [] == vs;
        return vs, Some(r.error);
      }
      assert vs + ([r.value] + ParseEach(parse, recs[i + 1..]).0) == (vs + [r.value]) + ParseEach(parse, recs[i + 1..]).0;
      vs := vs + [r.value];
      i := i + 1;
    }
    assert recs[i..] == [] && vs + [] == vs;
    err := None;
  }

  // ---------------------------------------------------------------- lemmas

  /** Concatenation is associative; stated once so that the loops need not prove it on their elements. */
  lemma AppendAssoc<T>(a: seq<T>, b: seq<T>, c: seq<T>)
    ensures a + (b + c) == a + b + c
  {
  }

  /**
   * One step of a loop that walks the records with `vs` parsed so far: the
   * next record either fails, ending the result there, or adds its value.
   */
  lemma ParseEachStep<V, E>(parse: string --> Result<V, E>, recs: seq<string>, i: nat, vs: seq<V>)
    requires i < |recs| && SafeUntilFailure(parse, recs) && SafeUntilFailure(parse, recs[i..])
    requires ParseEach(parse, recs) == (vs + ParseEach(parse, recs[i..]).0, ParseEach(parse, recs[i..]).1)
    ensures parse.requires(recs[i])
    ensures parse(recs[i]).Err? ==> ParseEach(parse, recs) == (vs, Some(parse(recs[i]).error))
    ensures parse(recs[i]).Ok? ==> SafeUntilFailure(parse, recs[i + 1..])
    ensures parse(recs[i]).Ok? ==>
      ParseEach(parse, recs) == (vs + [parse(recs[i]).value] + ParseEach(parse, recs[i + 1..]).0, ParseEach(parse, recs[i + 1..]).1)
  {
    var rest := recs[i..];
    assert rest[0] == recs[i] && rest[1..] == recs[i + 1..];
    if parse(recs[i]).Err? {
      assert vs + [] == vs;
    } else {
      var v := parse(recs[i]).value;
      assert vs + ([v] + ParseEach(parse, recs[i + 1..]).0) == vs + [v] + ParseEach(parse, recs[i + 1..]).0;
    }
  }

  /** Every value returned is the parse of the record at its position. */
  lemma {:induction false} ParseEachAt<V, E>(parse: string --> Result<V, E>, recs: seq<string>, i: nat)
    requires SafeUntilFailure(parse, recs) && i < |ParseEach(parse, recs).0|
    ensures parse.requires(recs[i]) && parse(recs[i]) == Ok(ParseEach(parse, recs).0[i])
    decreases i
  {
    if i > 0 {
      ParseEachAt(parse, recs[1..], i - 1);
      assert recs[1..][i - 1] == recs[i];
    }
  }

  /** On failure, the record right after the returned values is the one that failed, with that error. */
  lemma {:induction false} ParseEachError<V, E>(parse: string --> Result<V, E>, recs: seq<string>)
    requires SafeUntilFailure(parse, recs) && ParseEach(parse, recs).1.Some?
    ensures var r := ParseEach(parse, recs);
      parse.requires(recs[|r.0|]) && parse(recs[|r.0|]) == Err(r.1.value)
    decreases |recs|
  {
    if parse(recs[0]).Ok? {
      ParseEachError(parse, recs[1..]);
      assert recs[1..][|ParseEach(parse, recs[1..]).0|] == recs[|ParseEach(parse, recs).0|];
    }
  }

  /** When every record parses, the result is exactly their values, in order, and no error. */
  lemma {:induction false} ParseEachAll<V, E>(parse: string --> Result<V, E>, recs: seq<string>, vs: seq<V>)
    requires |recs| == |vs|
    requires forall i | 0 <= i < |recs| :: parse.requires(recs[i]) && parse(recs[i]) == Ok(vs[i])
    ensures SafeUntilFailure(parse, recs) && ParseEach(parse, recs) == (vs, None)
    decreases |recs|
  {
    if |recs| > 0 {
      forall i | 0 <= i < |recs| - 1 ensures parse.requires(recs[1..][i]) && parse(recs[1..][i]) == Ok(vs[1..][i]) {
        assert recs[1..][i] == recs[i + 1] && vs[1..][i] == vs[i + 1];
      }
      ParseEachAll(parse, recs[1..], vs[1..]);
      assert [vs[0]] + vs[1..] == vs;
    }
  }
}
