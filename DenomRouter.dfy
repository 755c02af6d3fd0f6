/**
 * The denom router of `Swap`: take the first routing rule whose `denom`
 * equals the received denom, split its `debtDenom` on '/', demand exactly
 * three pieces and route to the third.
 */
module DenomRouter {
  import opened Wrappers
  import opened Types

  const Sep: char := '/'

  /** Rule `i` is the first rule of `rules` whose denom is `denom`. */
  predicate FirstMatch(rules: seq<DenomConfig>, denom: Denom, i: int)
  {
    && 0 <= i < |rules|
    && rules[i].denom == denom
    && forall j :: 0 <= j < i ==> rules[j].denom != denom
  }

  /** `iter().find(|x| x.denom == denom)` over the routing rules. */
  function Find(rules: seq<DenomConfig>, denom: Denom): (r: Option<DenomConfig>)
    ensures r.None? <==> forall i :: 0 <= i < |rules| ==> rules[i].denom != denom
    ensures r.Some? ==> exists i :: FirstMatch(rules, denom, i) && rules[i] == r.value
  {
    if rules == [] then None
    else if rules[0].denom == denom then
      assert FirstMatch(rules, denom, 0);
      Some(rules[0])
    else
      var r := Find(rules[1..], denom);
      assert r.Some? ==> exists i :: FirstMatch(rules, denom, i) && rules[i] == r.value by {
        if r.Some? {
          var k :| FirstMatch(rules[1..], denom, k) && rules[1..][k] == r.value;
          assert FirstMatch(rules, denom, k + 1);
        }
      }
      r
  }

  /** The number of occurrences of `c` in `s`. */
  function Count(s: string, c: char): nat
  {
    if s == [] then 0 else (if s[0] == c then 1 else 0) + Count(s[1..], c)
  }

  /** `s.split(sep).collect()`: the pieces between separators, empty ones included. */
  function Split(s: string, sep: char): (parts: seq<string>)
    ensures |parts| == Count(s, sep) + 1
    ensures forall i :: 0 <= i < |parts| ==> sep !in parts[i]
  {
    if s == [] then [[]]
    else
      var rest := Split(s[1..], sep);
      if s[0] == sep then [[]] + rest
      else [[s[0]] + rest[0]] + rest[1..]
  }

  /** The inverse of `Split`: the pieces glued back with `sep` between them. */
  function Join(parts: seq<string>, sep: char): string
    requires |parts| >= 1
  {
    if |parts| == 1 then parts[0] else parts[0] + [sep] + Join(parts[1..], sep)
  }

  /** Joining the pieces of a split gives back the string. */
  lemma {:induction false} JoinSplit(s: string, sep: char)
    ensures Join(Split(s, sep), sep) == s
  {
    if s != [] {
      var rest := Split(s[1..], sep);
      JoinSplit(s[1..], sep);
      if s[0] == sep {
        assert ([[]] + rest)[1..] == rest;
      } else {
        var parts := [[s[0]] + rest[0]] + rest[1..];
        assert parts[1..] == rest[1..];
        if |rest| > 1 {
          assert Join(rest, sep) == rest[0] + [sep] + Join(rest[1..], sep);
        }
        assert s == [s[0]] + s[1..];
      }
    }
  }

  /** Splitting a separator-free prefix glued onto `t` extends `t`'s first piece. */
  lemma {:induction false} SplitPrefix(p: string, t: string, sep: char)
    requires sep !in p
    ensures Split(p + t, sep) == [p + Split(t, sep)[0]] + Split(t, sep)[1..]
  {
    if p != [] {
      SplitPrefix(p[1..], t, sep);
      assert (p + t)[1..] == p[1..] + t;
      assert [p[0]] + (p[1..] + Split(t, sep)[0]) == p + Split(t, sep)[0];
    } else {
      var parts := Split(t, sep);
      assert p + t == t;
      assert p + parts[0] == parts[0];
      assert parts == [parts[0]] + parts[1..];
    }
  }

  /** Splitting joined separator-free pieces gives back the pieces. */
  lemma {:induction false} SplitJoin(parts: seq<string>, sep: char)
    requires |parts| >= 1
    requires forall i :: 0 <= i < |parts| ==> sep !in parts[i]
    ensures Split(Join(parts, sep), sep) == parts
  {
    if |parts| == 1 {
      SplitPrefix(parts[0], [], sep);
      assert parts[0] + [] == parts[0];
    } else {
      var tail := Join(parts[1..], sep);
      SplitJoin(parts[1..], sep);
      assert Split([sep] + tail, sep) == [[]] + parts[1..] by {
        assert ([sep] + tail)[1..] == tail;
      }
      SplitPrefix(parts[0], [sep] + tail, sep);
      assert parts[0] + [sep] + tail == parts[0] + ([sep] + tail);
      assert parts[0] + [] == parts[0];
    }
  }

  /** Joining two or more pieces ends with a separator and the last piece. */
  lemma {:induction false} JoinLast(parts: seq<string>, sep: char)
    requires |parts| >= 2
    ensures Join(parts, sep) == Join(parts[..|parts| - 1], sep) + [sep] + parts[|parts| - 1]
  {
    if |parts| > 2 {
      JoinLast(parts[1..], sep);
      assert parts[1..][..|parts| - 2] == parts[..|parts| - 1][1..];
    }
  }

  /** `seg` is the text after the last separator of `s`. */
  predicate LastSegment(s: string, seg: string, sep: char)
  {
    && |seg| < |s|
    && s[|s| - |seg| - 1] == sep
    && s[|s| - |seg|..] == seg
    && sep !in seg
  }

  /** A string with a separator in it ends with its last split piece after a separator. */
  lemma SplitLastSegment(s: string, sep: char)
    requires |Split(s, sep)| >= 2
    ensures LastSegment(s, Split(s, sep)[|Split(s, sep)| - 1], sep)
  {
    var parts := Split(s, sep);
    JoinSplit(s, sep);
    JoinLast(parts, sep);
  }

  /**
   * The market address a received denom routes to: the third piece of the
   * first matching rule's `debtDenom`, or `InvalidDenom(denom)` when no rule
   * matches or that `debtDenom` does not have exactly two '/'.
   */
  function Route(rules: seq<DenomConfig>, denom: Denom): (r: Result<Addr, ContractError>)
    ensures r.Err? ==> r.error == InvalidDenom(denom)
    ensures (forall i :: 0 <= i < |rules| ==> rules[i].denom != denom) ==> r.Err?
    ensures r.Ok? <==> exists i :: FirstMatch(rules, denom, i) && Count(rules[i].debtDenom, Sep) == 2
    ensures forall i :: FirstMatch(rules, denom, i) ==>
      (r.Ok? <==> Count(rules[i].debtDenom, Sep) == 2)
    ensures forall i :: FirstMatch(rules, denom, i) && r.Ok? ==>
      LastSegment(rules[i].debtDenom, r.value, Sep)
  {
    match Find(rules, denom)
    case None => Err(InvalidDenom(denom))
    case Some(rule) =>
      var parts := Split(rule.debtDenom, Sep);
      if |parts| != 3 then Err(InvalidDenom(denom))
      else
        SplitLastSegment(rule.debtDenom, Sep);
        Ok(parts[2])
  }
}
