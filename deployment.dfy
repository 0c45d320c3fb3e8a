/** Deployment scheduling (backend/deployment/process_type_util.py).

    Pi names are normalised into dictionary keys; a plan's processes are
    assigned to Pis by applying pinned constraints first and then placing
    the rest heaviest first, each on the Pi with the least total weight
    (ties broken by name). Process types are a type parameter and
    `get_weight` a function parameter; weights are reals, so the float
    additions are exact here. */
module Deployment {
  import opened Wrappers

  // ---- normalize_pi_name -----------------------------------------------------

  /** The characters `str.strip()` removes: Python's whitespace. */
  predicate IsSpace(c: char)
  {
    || c == ' ' || '\t' <= c <= '\r' || '\U{1c}' <= c <= '\U{1f}' || c == '\U{85}' || c == '\U{a0}'
    || c == '\U{1680}' || '\U{2000}' <= c <= '\U{200a}' || c == '\U{2028}' || c == '\U{2029}'
    || c == '\U{202f}' || c == '\U{205f}' || c == '\U{3000}'
  }

  function TrimStart(s: string): (r: string)
    ensures |r| <= |s|
  {
    if s != [] && IsSpace(s[0]) then TrimStart(s[1..]) else s
  }

  function TrimEnd(s: string): (r: string)
    ensures |r| <= |s|
  {
    if s != [] && IsSpace(s[|s| - 1]) then TrimEnd(s[..|s| - 1]) else s
  }

  /** `str.strip()` */
  function Strip(s: string): string
  {
    TrimEnd(TrimStart(s))
  }

  predicate IsUpper(c: char)
  {
    'A' <= c <= 'Z'
  }

  function LowerChar(c: char): (d: char)
    ensures !IsUpper(d)
    ensures !IsUpper(c) ==> d == c
  {
    if IsUpper(c) then (c as int + 32) as char else c
  }

  /** `str.lower()` on ASCII letters. */
  function Lower(s: string): (r: string)
    ensures |r| == |s|
  {
    if s == [] then [] else [LowerChar(s[0])] + Lower(s[1..])
  }

  /** `str.rstrip(".")` */
  function RStripDots(s: string): (r: string)
    ensures |r| <= |s|
  {
    if s != [] && s[|s| - 1] == '.' then RStripDots(s[..|s| - 1]) else s
  }

  const LOCAL := ".local"

  /** Drop one ".local" suffix, if there is one. */
  function DropLocal(n: string): (r: string)
    ensures |r| <= |n|
  {
    if |n| >= |LOCAL| && n[|n| - |LOCAL|..] == LOCAL then n[..|n| - |LOCAL|] else n
  }

  /** `normalize_pi_name`: a missing name counts as the empty string; then
      strip, lower-case, drop trailing dots and one ".local" suffix. */
  function NormalizePiName(name: Option<string>): (r: string)
    ensures |r| <= |if name.Some? then name.value else ""|
  {
    var raw := if name.Some? then name.value else "";
    DropLocal(RStripDots(Lower(Strip(raw))))
  }

  lemma {:induction false} TrimStartHead(s: string)
    ensures TrimStart(s) == [] || !IsSpace(TrimStart(s)[0])
  {
    if s != [] && IsSpace(s[0]) {
      TrimStartHead(s[1..]);
    }
  }

  lemma {:induction false} TrimEndPrefix(s: string)
    ensures TrimEnd(s) <= s
    ensures TrimEnd(s) == [] || !IsSpace(TrimEnd(s)[|TrimEnd(s)| - 1])
  {
    if s != [] && IsSpace(s[|s| - 1]) {
      TrimEndPrefix(s[..|s| - 1]);
    }
  }

  /** What `strip` returns neither starts nor ends with whitespace. */
  lemma StripTrims(s: string)
    ensures var r := Strip(s); r == [] || (!IsSpace(r[0]) && !IsSpace(r[|r| - 1]))
  {
    TrimStartHead(s);
    TrimEndPrefix(TrimStart(s));
  }

  /** ... and a string that neither starts nor ends with whitespace is
      returned as it is. */
  lemma StripKeeps(s: string)
    requires s == [] || (!IsSpace(s[0]) && !IsSpace(s[|s| - 1]))
    ensures Strip(s) == s
  {
  }

  lemma {:induction false} LowerNoUpper(s: string)
    ensures forall i :: 0 <= i < |Lower(s)| ==> !IsUpper(Lower(s)[i])
  {
    if s != [] {
      LowerNoUpper(s[1..]);
      assert forall i :: 1 <= i < |s| ==> Lower(s)[i] == Lower(s[1..])[i - 1];
    }
  }

  lemma {:induction false} LowerKeeps(s: string)
    requires forall i :: 0 <= i < |s| ==> !IsUpper(s[i])
    ensures Lower(s) == s
  {
    if s != [] {
      LowerKeeps(s[1..]);
    }
  }

  lemma {:induction false} RStripDotsPrefix(s: string)
    ensures RStripDots(s) <= s
  {
    if s != [] && s[|s| - 1] == '.' {
      RStripDotsPrefix(s[..|s| - 1]);
    }
  }

  lemma RStripKeeps(s: string)
    requires s == [] || s[|s| - 1] != '.'
    ensures RStripDots(s) == s
  {
  }

  /** Normalised names have no upper-case letters. */
  lemma NormalizeLowerCase(name: Option<string>)
    ensures var r := NormalizePiName(name); forall i :: 0 <= i < |r| ==> !IsUpper(r[i])
  {
    var raw := if name.Some? then name.value else "";
    var l := Lower(Strip(raw));
    LowerNoUpper(Strip(raw));
    RStripDotsPrefix(l);
  }

  lemma {:induction false} LowerAppend(a: string, b: string)
    ensures Lower(a + b) == Lower(a) + Lower(b)
  {
    if a == [] {
      assert a + b == b;
    } else {
      assert (a + b)[0] == a[0] && (a + b)[1..] == a[1..] + b;
      LowerAppend(a[1..], b);
      calc {
        Lower(a + b);
        [LowerChar(a[0])] + Lower(a[1..] + b);
        [LowerChar(a[0])] + (Lower(a[1..]) + Lower(b));
        ([LowerChar(a[0])] + Lower(a[1..])) + Lower(b);
        Lower(a) + Lower(b);
      }
    }
  }

  /** Neither strip nor lower changes a name without leading space or
      upper-case letters followed by a suffix `t` without surrounding space
      or upper-case letters. */
  lemma StripLowerSuffixed(s: string, t: string)
    requires s == [] || !IsSpace(s[0])
    requires forall i :: 0 <= i < |s| ==> !IsUpper(s[i])
    requires t != [] && !IsSpace(t[0]) && !IsSpace(t[|t| - 1])
    requires forall i :: 0 <= i < |t| ==> !IsUpper(t[i])
    ensures Strip(s + t) == s + t && Lower(s + t) == s + t
  {
    var a := s + t;
    assert a[0] == if s == [] then t[0] else s[0];
    assert a[|a| - 1] == t[|t| - 1];
    StripKeeps(a);
    LowerAppend(s, t);
    LowerKeeps(s);
    LowerKeeps(t);
  }

  lemma LocalChars()
    ensures LOCAL + "." == ".local."
    ensures forall i :: 0 <= i < |LOCAL| ==> !IsUpper(LOCAL[i])
    ensures forall i :: 0 <= i < |LOCAL + "."| ==> !IsUpper((LOCAL + ".")[i])
  {
    assert LOCAL == ['.', 'l', 'o', 'c', 'a', 'l'];
    assert LOCAL + "." == ['.', 'l', 'o', 'c', 'a', 'l', '.'];
  }

  /** Such a name loses a ".local" suffix... */
  lemma NormalizeDropsLocal(s: string)
    requires s == [] || !IsSpace(s[0])
    requires forall i :: 0 <= i < |s| ==> !IsUpper(s[i])
    ensures NormalizePiName(Some(s + LOCAL)) == s
  {
    LocalChars();
    StripLowerSuffixed(s, LOCAL);
    var a := s + LOCAL;
    RStripKeeps(a);
    assert a[|a| - |LOCAL|..] == LOCAL;
    assert a[..|a| - |LOCAL|] == s;
  }

  /** ... and also when a dot follows it. */
  lemma NormalizeDropsLocalDot(s: string)
    requires s == [] || !IsSpace(s[0])
    requires forall i :: 0 <= i < |s| ==> !IsUpper(s[i])
    ensures NormalizePiName(Some(s + LOCAL + ".")) == s
  {
    LocalChars();
    StripLowerSuffixed(s, LOCAL + ".");
    var b := s + (LOCAL + ".");
    assert s + LOCAL + "." == b;
    assert RStripDots(b) == RStripDots(s + LOCAL) by {
      assert b[..|b| - 1] == s + LOCAL;
    }
    NormalizeDropsLocal(s);
    StripLowerSuffixed(s, LOCAL);
  }

  /** The documented examples: "pi1.local" and "pi1.local." give "pi1". */
  lemma NormalizeExamplesLocal()
    ensures NormalizePiName(Some("pi1.local")) == "pi1"
    ensures NormalizePiName(Some("pi1.local.")) == "pi1"
  {
    NormalizeDropsLocal("pi1");
    NormalizeDropsLocalDot("pi1");
    assert "pi1" + LOCAL == "pi1.local";
    assert "pi1" + LOCAL + "." == "pi1.local.";
  }

  /** The documented examples: "PI1" gives "pi1" and a missing name "". */
  lemma NormalizeExamplesUpper()
    ensures NormalizePiName(Some("PI1")) == "pi1"
    ensures NormalizePiName(None) == ""
  {
    StripKeeps("PI1");
    assert Lower("PI1") == "pi1";
    RStripKeeps("pi1");
  }

  /** A name with no surrounding space, no upper-case letter, no trailing
      dot and no ".local" suffix is already normal. */
  predicate Canonical(s: string)
  {
    && (s == [] || (!IsSpace(s[0]) && !IsSpace(s[|s| - 1]) && s[|s| - 1] != '.'))
    && (forall i :: 0 <= i < |s| ==> !IsUpper(s[i]))
    && !(|s| >= |LOCAL| && s[|s| - |LOCAL|..] == LOCAL)
  }

  lemma NormalizeKeepsCanonical(s: string)
    requires Canonical(s)
    ensures NormalizePiName(Some(s)) == s
  {
    StripKeeps(s);
    LowerKeeps(s);
    RStripKeeps(s);
  }

  /** Normalising twice can differ from normalising once: only one ".local"
      suffix is dropped at a time. */
  lemma NormalizeNotIdempotent(s: string)
    requires s == [] || !IsSpace(s[0])
    requires forall i :: 0 <= i < |s| ==> !IsUpper(s[i])
    ensures NormalizePiName(Some(s + LOCAL + LOCAL)) == s + LOCAL
    ensures NormalizePiName(Some(NormalizePiName(Some(s + LOCAL + LOCAL)))) != NormalizePiName(Some(s + LOCAL + LOCAL))
  {
    var a := s + LOCAL;
    assert a[|s|] == '.' && (a == [] || !IsSpace(a[0]));
    forall i | 0 <= i < |a| ensures !IsUpper(a[i]) {
      if i >= |s| {
        assert a[i] == LOCAL[i - |s|];
      }
    }
    NormalizeDropsLocal(a);
    NormalizeDropsLocal(s);
    assert |a| != |s|;
  }

  // ---- Weights and multisets ---------------------------------------------------

  function Repeat<P>(p: P, n: nat): (r: seq<P>)
    ensures |r| == n
  {
    if n == 0 then [] else [p] + Repeat(p, n - 1)
  }

  lemma RepeatMultiset<P>(p: P, n: nat)
    ensures multiset(Repeat(p, n)) == multiset{}[p := n]
  {
    if n > 0 {
      RepeatMultiset(p, n - 1);
      assert Repeat(p, n) == [p] + Repeat(p, n - 1);
    }
  }

  /** The sum of `get_weight` over a list. */
  function TotalWeight<P>(s: seq<P>, weight: P -> real): real
  {
    if s == [] then 0.0 else TotalWeight(s[..|s| - 1], weight) + weight(s[|s| - 1])
  }

  lemma {:induction false} TotalWeightAppend<P>(s: seq<P>, t: seq<P>, weight: P -> real)
    ensures TotalWeight(s + t, weight) == TotalWeight(s, weight) + TotalWeight(t, weight)
  {
    if t == [] {
      assert s + t == s;
    } else {
      assert (s + t)[..|s + t| - 1] == s + t[..|t| - 1];
      TotalWeightAppend(s, t[..|t| - 1], weight);
    }
  }

  /** `get_weight(p) * removed` */
  function Times(w: real, n: nat): real
  {
    w * n as real
  }

  lemma {:induction false} TotalWeightRepeat<P>(p: P, n: nat, weight: P -> real)
    ensures TotalWeight(Repeat(p, n), weight) == Times(weight(p), n)
  {
    if n > 0 {
      TotalWeightRepeat(p, n - 1, weight);
      TotalWeightAppend([p], Repeat(p, n - 1), weight);
      assert [p][..0] == [];
    }
  }

  /** `list.remove`: drop the first occurrence. */
  function RemoveFirst<P(==)>(s: seq<P>, x: P): (r: seq<P>)
    requires x in s
    ensures multiset(r) == multiset(s) - multiset{x}
  {
    if s[0] == x then
      assert s == [s[0]] + s[1..];
      s[1..]
    else
      assert s == [s[0]] + s[1..];
      [s[0]] + RemoveFirst(s[1..], x)
  }

  // ---- Sorting heaviest first -------------------------------------------------

  predicate Descending<P>(s: seq<P>, weight: P -> real)
  {
    forall i, j :: 0 <= i < j < |s| ==> weight(s[i]) >= weight(s[j])
  }

  /** A head no lighter than anything after it keeps a list descending. */
  lemma DescendingCons<P>(h: P, t: seq<P>, weight: P -> real)
    requires Descending(t, weight)
    requires forall y :: y in multiset(t) ==> weight(h) >= weight(y)
    ensures Descending([h] + t, weight)
  {
    forall i, j | 0 <= i < j < |[h] + t| ensures weight(([h] + t)[i]) >= weight(([h] + t)[j]) {
      if i == 0 {
        assert t[j - 1] in multiset(t);
      }
    }
  }

  /** The head of a descending list is as heavy as any element. */
  lemma DescendingHead<P>(s: seq<P>, weight: P -> real)
    requires s != [] && Descending(s, weight)
    ensures forall y :: y in multiset(s) ==> weight(s[0]) >= weight(y)
  {
    forall y | y in multiset(s) ensures weight(s[0]) >= weight(y) {
      var j :| 0 <= j < |s| && s[j] == y;
    }
  }

  /** Insert after every element at least as heavy, which keeps equal
      weights in their original order. */
  function InsertDesc<P>(x: P, s: seq<P>, weight: P -> real): (r: seq<P>)
    requires Descending(s, weight)
    ensures Descending(r, weight)
    ensures multiset(r) == multiset(s) + multiset{x}
  {
    if s == [] then [x]
    else if weight(s[0]) >= weight(x) then
      var t := InsertDesc(x, s[1..], weight);
      assert s == [s[0]] + s[1..];
      DescendingHead(s, weight);
      DescendingCons(s[0], t, weight);
      [s[0]] + t
    else
      DescendingHead(s, weight);
      DescendingCons(x, s, weight);
      [x] + s
  }

  /** `remaining.sort(key=get_weight, reverse=True)`: a stable sort by
      descending weight. */
  function SortDesc<P>(s: seq<P>, weight: P -> real): (r: seq<P>)
    ensures Descending(r, weight)
    ensures multiset(r) == multiset(s)
  {
    if s == [] then []
    else
      assert s == s[..|s| - 1] + [s[|s| - 1]];
      InsertDesc(s[|s| - 1], SortDesc(s[..|s| - 1], weight), weight)
  }

  // ---- The lightest Pi -------------------------------------------------------

  /** Python's `<` on strings: code point by code point, a proper prefix
      first. */
  predicate StrLess(a: string, b: string)
  {
    if a == [] then b != []
    else b != [] && (a[0] < b[0] || (a[0] == b[0] && StrLess(a[1..], b[1..])))
  }

  lemma {:induction false} StrLessTrans(a: string, b: string, c: string)
    requires StrLess(a, b) && StrLess(b, c)
    ensures StrLess(a, c)
  {
    if a != [] && a[0] == b[0] && b[0] == c[0] {
      StrLessTrans(a[1..], b[1..], c[1..]);
    }
  }

  lemma {:induction false} StrLessTotal(a: string, b: string)
    ensures a == b || StrLess(a, b) || StrLess(b, a)
  {
    if a != [] && b != [] && a[0] == b[0] {
      StrLessTotal(a[1..], b[1..]);
      if a[1..] == b[1..] {
        assert a == [a[0]] + a[1..] && b == [b[0]] + b[1..];
      }
    }
  }

  lemma {:induction false} StrLessIrreflexive(a: string)
    ensures !StrLess(a, a)
  {
    if a != [] {
      StrLessIrreflexive(a[1..]);
    }
  }

  /** The key `(weights[k], k)` of k is below that of m. */
  predicate KeyLess(weights: map<string, real>, k: string, m: string)
    requires k in weights && m in weights
  {
    weights[k] < weights[m] || (weights[k] == weights[m] && StrLess(k, m))
  }

  /** The name `min` returns, scanning `names` in order and keeping the
      earlier one unless the next is strictly below it. */
  function MinKey(weights: map<string, real>, names: seq<string>): (t: string)
    requires |names| > 0 && forall k :: k in names ==> k in weights
    ensures t in names
  {
    if |names| == 1 then names[0]
    else
      var m := MinKey(weights, names[..|names| - 1]);
      var k := names[|names| - 1];
      if KeyLess(weights, k, m) then k else m
  }

  /** `min(weights.keys(), key=lambda k: (weights[k], k))`: the key whose
      (weight, name) is least; names are distinct, so it is unique. */
  method Lightest(weights: map<string, real>, names: seq<string>) returns (target: string)
    requires |names| > 0 && forall k :: k in names ==> k in weights
    ensures target == MinKey(weights, names)
    ensures forall k :: k in names && k != target ==> KeyLess(weights, target, k)
  {
    target := names[0];
    for i := 1 to |names|
      invariant target == MinKey(weights, names[..i])
      invariant target in names[..i]
      invariant forall k :: k in names[..i] && k != target ==> KeyLess(weights, target, k)
    {
      var k := names[i];
      assert names[..i + 1] == names[..i] + [k];
      assert names[..i + 1][..i] == names[..i];
      if KeyLess(weights, k, target) {
        forall m | m in names[..i] && m != target ensures KeyLess(weights, k, m) {
          if weights[k] == weights[target] == weights[m] {
            StrLessTrans(k, target, m);
          }
        }
        StrLessIrreflexive(k);
        target := k;
      } else if k != target {
        StrLessTotal(k, target);
      }
    }
    assert names[..|names|] == names;
    assert names[..1] == [names[0]];
  }

  // ---- The assignment ----------------------------------------------------------

  datatype Constrained<P> = Constrained(process: P, piName: string, count: int)

  /** The dictionary keys: the normalised names, first occurrence first. */
  function Keys(piNames: seq<string>): (r: seq<string>)
    ensures forall k :: k in r <==> exists p :: p in piNames && NormalizePiName(Some(p)) == k
    ensures forall i, j :: 0 <= i < j < |r| ==> r[i] != r[j]
    ensures r == [] <==> piNames == []
  {
    if piNames == [] then []
    else
      var rest := Keys(piNames[..|piNames| - 1]);
      var k := NormalizePiName(Some(piNames[|piNames| - 1]));
      assert forall p :: p in piNames <==> p in piNames[..|piNames| - 1] || p == piNames[|piNames| - 1] by {
        assert piNames == piNames[..|piNames| - 1] + [piNames[|piNames| - 1]];
      }
      if k in rest then rest else rest + [k]
  }

  /** Everything assigned, over the given keys. */
  function Pooled<P>(out: map<string, seq<P>>, keys: seq<string>): multiset<P>
    requires forall k :: k in keys ==> k in out
  {
    if keys == [] then multiset{} else multiset(out[keys[0]]) + Pooled(out, keys[1..])
  }

  lemma {:induction false} PooledAppend<P>(out: map<string, seq<P>>, keys: seq<string>, key: string, extra: seq<P>)
    requires forall k :: k in keys ==> k in out
    requires key in keys && forall i, j :: 0 <= i < j < |keys| ==> keys[i] != keys[j]
    ensures Pooled(out[key := out[key] + extra], keys) == Pooled(out, keys) + multiset(extra)
  {
    var out' := out[key := out[key] + extra];
    if keys[0] == key {
      PooledFrame(out, keys[1..], key, out[key] + extra);
    } else {
      PooledAppend(out, keys[1..], key, extra);
    }
  }

  lemma {:induction false} PooledFrame<P>(out: map<string, seq<P>>, keys: seq<string>, key: string, v: seq<P>)
    requires forall k :: k in keys ==> k in out
    requires key !in keys
    ensures Pooled(out[key := v], keys) == Pooled(out, keys)
  {
    if keys != [] {
      PooledFrame(out, keys[1..], key, v);
    }
  }

  lemma {:induction false} PooledEmpty<P>(out: map<string, seq<P>>, keys: seq<string>)
    requires forall k :: k in keys ==> k in out && out[k] == []
    ensures Pooled(out, keys) == multiset{}
  {
    if keys != [] {
      PooledEmpty(out, keys[1..]);
    }
  }

  /** The mapping and the running totals have exactly the names in `keys`
      as keys, and `keys` holds no name twice. */
  predicate KeyedBy<P>(out: map<string, seq<P>>, weights: map<string, real>, keys: seq<string>)
  {
    out.Keys == (set k | k in keys) && weights.Keys == out.Keys
    && forall i, j :: 0 <= i < j < |keys| ==> keys[i] != keys[j]
  }

  /** Each Pi in `keys` has a running total equal to the weight of its list. */
  predicate Balanced<P>(out: map<string, seq<P>>, weights: map<string, real>, keys: seq<string>, weight: P -> real)
    decreases |keys|
  {
    keys == []
    || (keys[0] in out && keys[0] in weights && weights[keys[0]] == TotalWeight(out[keys[0]], weight)
        && Balanced(out, weights, keys[1..], weight))
  }

  lemma {:induction false} BalancedAt<P>(out: map<string, seq<P>>, weights: map<string, real>, keys: seq<string>,
                                         weight: P -> real, k: string)
    requires Balanced(out, weights, keys, weight) && k in keys
    ensures k in out && k in weights && weights[k] == TotalWeight(out[k], weight)
  {
    if keys[0] != k {
      BalancedAt(out, weights, keys[1..], weight, k);
    }
  }

  /** Every list empty and every total zero is balanced. */
  lemma {:induction false} BalancedZero<P>(out: map<string, seq<P>>, weights: map<string, real>, keys: seq<string>,
                                           weight: P -> real)
    requires forall k :: k in keys ==> k in out && out[k] == [] && k in weights && weights[k] == 0.0
    ensures Balanced(out, weights, keys, weight)
  {
    if keys != [] {
      BalancedZero(out, weights, keys[1..], weight);
    }
  }

  /** `s` after `remove(p)` has run `n` times, stopping once `p` is gone:
      the first `n` copies of `p` are dropped. */
  function Take<P(==)>(s: seq<P>, p: P, n: nat): (r: seq<P>)
    ensures |s| - n <= |r| <= |s|
  {
    if s == [] then []
    else if s[0] == p && n > 0 then Take(s[1..], p, n - 1)
    else [s[0]] + Take(s[1..], p, n)
  }

  lemma {:induction false} TakeZero<P>(s: seq<P>, p: P)
    ensures Take(s, p, 0) == s
  {
    if s != [] {
      TakeZero(s[1..], p);
    }
  }

  /** While a copy is left, one more `remove` takes the first of them. */
  lemma {:induction false} TakeMore<P>(s: seq<P>, p: P, k: nat)
    requires p in Take(s, p, k)
    ensures Take(s, p, k + 1) == RemoveFirst(Take(s, p, k), p)
  {
    if s[0] == p && k > 0 {
      TakeMore(s[1..], p, k - 1);
    } else if s[0] == p {
      TakeZero(s, p);
      TakeZero(s[1..], p);
    } else {
      var t := Take(s[1..], p, k);
      assert Take(s, p, k) == [s[0]] + t;
      TakeMore(s[1..], p, k);
      assert ([s[0]] + t)[1..] == t;
    }
  }

  /** One pass of that loop, while a copy is left: the loop's invariants
      hold after one more removal. */
  lemma TakeCopiesStep<P>(remaining0: seq<P>, process: P, removed: nat, remaining: seq<P>)
    requires multiset(remaining) + multiset{}[process := removed] == multiset(remaining0)
    requires remaining == Take(remaining0, process, removed) && process in remaining
    ensures removed + 1 <= multiset(remaining0)[process]
    ensures multiset(RemoveFirst(remaining, process)) + multiset{}[process := removed + 1] == multiset(remaining0)
    ensures RemoveFirst(remaining, process) == Take(remaining0, process, removed + 1)
  {
    assert multiset(remaining)[process] >= 1;
    TakeMore(remaining0, process, removed);
  }

  /** The `for _ in range(max(0, int(c.count)))` loop: remove up to `count`
      copies of the process, stopping at the first one missing. */
  method TakeCopies<P(==)>(remaining0: seq<P>, process: P, count: int) returns (remaining: seq<P>, removed: nat)
    ensures removed == if count <= 0 then 0 else Min(count, multiset(remaining0)[process])
    ensures multiset(remaining) + multiset(Repeat(process, removed)) == multiset(remaining0)
    ensures remaining == Take(remaining0, process, removed)
  {
    remaining, removed := remaining0, 0;
    var n := if count < 0 then 0 else count;
    ghost var m := multiset(remaining0)[process];
    TakeZero(remaining0, process);
    for i := 0 to n
      invariant removed == i <= m
      invariant multiset(remaining) + multiset{}[process := removed] == multiset(remaining0)
      invariant remaining == Take(remaining0, process, removed)
    {
      if process !in remaining {
        assert multiset(remaining)[process] == 0;
        break;
      }
      TakeCopiesStep(remaining0, process, removed, remaining);
      remaining := RemoveFirst(remaining, process);
      removed := removed + 1;
    }
    RepeatMultiset(process, removed);
  }

  function Min(a: int, b: int): int
  {
    if a < b then a else b
  }

  /** Appending to one Pi's list and adding the appended weight to its
      total keeps every total right. */
  lemma {:induction false} Place<P>(out: map<string, seq<P>>, weights: map<string, real>, keys: seq<string>,
                                    pi: string, extra: seq<P>, added: real, weight: P -> real)
    requires Balanced(out, weights, keys, weight)
    requires pi in out && pi in weights && weights[pi] == TotalWeight(out[pi], weight)
    requires added == TotalWeight(extra, weight)
    ensures Balanced(out[pi := out[pi] + extra], weights[pi := weights[pi] + added], keys, weight)
  {
    if keys != [] {
      Place(out, weights, keys[1..], pi, extra, added, weight);
      if keys[0] == pi {
        TotalWeightAppend(out[pi], extra, weight);
      }
    }
  }

  /** One constraint. A Pi that is not in the mapping is skipped; otherwise
      the copies TakeCopies removed go on the end of that Pi's list and
      their weight onto its total. */
  method ApplyConstraint<P(==)>(out0: map<string, seq<P>>, weights0: map<string, real>,
                                remaining0: seq<P>, c: Constrained<P>, pi: string, weight: P -> real)
    returns (out: map<string, seq<P>>, weights: map<string, real>, remaining: seq<P>, removed: nat)
    requires weights0.Keys == out0.Keys
    ensures pi !in out0 ==> remaining == remaining0 && removed == 0
    ensures pi in out0 ==> removed == if c.count <= 0 then 0 else Min(c.count, multiset(remaining0)[c.process])
    ensures multiset(remaining) + multiset(Repeat(c.process, removed)) == multiset(remaining0)
    ensures remaining == Take(remaining0, c.process, removed)
    ensures out == if removed == 0 then out0 else out0[pi := out0[pi] + Repeat(c.process, removed)]
    ensures weights == if removed == 0 then weights0 else weights0[pi := weights0[pi] + Times(weight(c.process), removed)]
  {
    out, weights, remaining, removed := out0, weights0, remaining0, 0;
    if pi !in out {
      TakeZero(remaining0, c.process);
      return;
    }
    remaining, removed := TakeCopies(remaining, c.process, c.count);
    if removed <= 0 {
      return;
    }
    out := out[pi := out[pi] + Repeat(c.process, removed)];
    weights := weights[pi := weights[pi] + Times(weight(c.process), removed)];
  }

  /** What ApplyConstraint does keeps every total right ... */
  lemma ConstraintKeepsTotals<P>(out0: map<string, seq<P>>, weights0: map<string, real>, keys: seq<string>,
                                 p: P, pi: string, weight: P -> real,
                                 out: map<string, seq<P>>, weights: map<string, real>, removed: nat)
    requires KeyedBy(out0, weights0, keys) && Balanced(out0, weights0, keys, weight)
    requires removed > 0 ==> pi in out0
    requires out == if removed == 0 then out0 else out0[pi := out0[pi] + Repeat(p, removed)]
    requires weights == if removed == 0 then weights0 else weights0[pi := weights0[pi] + Times(weight(p), removed)]
    ensures KeyedBy(out, weights, keys) && Balanced(out, weights, keys, weight)
  {
    if removed > 0 {
      TotalWeightRepeat(p, removed, weight);
      BalancedAt(out0, weights0, keys, weight, pi);
      Place(out0, weights0, keys, pi, Repeat(p, removed), Times(weight(p), removed), weight);
    }
  }

  /** ... and moves processes from `remaining` to the mapping without
      losing or adding any. */
  lemma ConstraintKeepsProcesses<P>(out0: map<string, seq<P>>, keys: seq<string>,
                                    remaining0: seq<P>, p: P, pi: string,
                                    out: map<string, seq<P>>, remaining: seq<P>, removed: nat)
    requires out0.Keys == (set k | k in keys) && forall i, j :: 0 <= i < j < |keys| ==> keys[i] != keys[j]
    requires removed > 0 ==> pi in out0
    requires multiset(remaining) + multiset(Repeat(p, removed)) == multiset(remaining0)
    requires out == if removed == 0 then out0 else out0[pi := out0[pi] + Repeat(p, removed)]
    ensures Pooled(out, keys) + multiset(remaining) == Pooled(out0, keys) + multiset(remaining0)
  {
    if removed == 0 {
      assert multiset(Repeat(p, removed)) == multiset{};
    } else {
      var copies := Repeat(p, removed);
      PooledAppend(out0, keys, pi, copies);
      calc {
        Pooled(out, keys) + multiset(remaining);
        (Pooled(out0, keys) + multiset(copies)) + multiset(remaining);
        Pooled(out0, keys) + (multiset(remaining) + multiset(copies));
        Pooled(out0, keys) + multiset(remaining0);
      }
    }
  }

  /** What one constraint does to (mapping, totals, remaining): the copies
      it can take move onto its normalised Pi when that Pi is a key. */
  function Constrain<P(==)>(out: map<string, seq<P>>, weights: map<string, real>, remaining: seq<P>,
                            c: Constrained<P>, weight: P -> real): (r: (map<string, seq<P>>, map<string, real>, seq<P>))
    requires weights.Keys == out.Keys
    ensures r.0.Keys == out.Keys && r.1.Keys == weights.Keys
  {
    var pi := NormalizePiName(Some(c.piName));
    var n := if pi !in out || c.count <= 0 then 0 else Min(c.count, multiset(remaining)[c.process]);
    if n == 0 then (out, weights, remaining)
    else (out[pi := out[pi] + Repeat(c.process, n)], weights[pi := weights[pi] + Times(weight(c.process), n)],
          Take(remaining, c.process, n))
  }

  /** ApplyConstraint's outcome, for the constraint's normalised Pi, is
      `Constrain`'s. */
  lemma ConstrainIs<P>(out0: map<string, seq<P>>, weights0: map<string, real>, remaining0: seq<P>,
                           c: Constrained<P>, pi: string, weight: P -> real,
                           out: map<string, seq<P>>, weights: map<string, real>, remaining: seq<P>, removed: nat)
    requires weights0.Keys == out0.Keys && pi == NormalizePiName(Some(c.piName))
    requires pi !in out0 ==> remaining == remaining0 && removed == 0
    requires pi in out0 ==> removed == if c.count <= 0 then 0 else Min(c.count, multiset(remaining0)[c.process])
    requires remaining == Take(remaining0, c.process, removed)
    requires out == if removed == 0 then out0 else out0[pi := out0[pi] + Repeat(c.process, removed)]
    requires weights == if removed == 0 then weights0 else weights0[pi := weights0[pi] + Times(weight(c.process), removed)]
    ensures (out, weights, remaining) == Constrain(out0, weights0, remaining0, c, weight)
  {
    var n := if pi !in out0 || c.count <= 0 then 0 else Min(c.count, multiset(remaining0)[c.process]);
    assert removed == n;
    if n == 0 {
      TakeZero(remaining0, c.process);
      assert Constrain(out0, weights0, remaining0, c, weight) == (out0, weights0, remaining0);
    } else {
      assert Constrain(out0, weights0, remaining0, c, weight)
          == (out0[pi := out0[pi] + Repeat(c.process, n)], weights0[pi := weights0[pi] + Times(weight(c.process), n)],
              Take(remaining0, c.process, n));
    }
  }

  /** The constraints, applied in order. */
  function ConstrainAll<P(==)>(out: map<string, seq<P>>, weights: map<string, real>, remaining: seq<P>,
                               cs: seq<Constrained<P>>, weight: P -> real): (r: (map<string, seq<P>>, map<string, real>, seq<P>))
    requires weights.Keys == out.Keys
    ensures r.0.Keys == out.Keys && r.1.Keys == weights.Keys
    decreases |cs|
  {
    if cs == [] then (out, weights, remaining)
    else
      var s := Constrain(out, weights, remaining, cs[0], weight);
      ConstrainAll(s.0, s.1, s.2, cs[1..], weight)
  }

  /** One iteration of the constraints loop: normalise the constraint's Pi
      name, apply it, and keep the loop's invariants. */
  method ConstraintStep<P(==)>(out0: map<string, seq<P>>, weights0: map<string, real>, keys: seq<string>,
                               remaining0: seq<P>, c: Constrained<P>, weight: P -> real)
    returns (out: map<string, seq<P>>, weights: map<string, real>, remaining: seq<P>)
    requires KeyedBy(out0, weights0, keys) && Balanced(out0, weights0, keys, weight)
    ensures (out, weights, remaining) == Constrain(out0, weights0, remaining0, c, weight)
    ensures KeyedBy(out, weights, keys) && Balanced(out, weights, keys, weight)
    ensures Pooled(out, keys) + multiset(remaining) == Pooled(out0, keys) + multiset(remaining0)
  {
    var pi := NormalizePiName(Some(c.piName));
    var removed;
    out, weights, remaining, removed := ApplyConstraint(out0, weights0, remaining0, c, pi, weight);
    ConstrainIs(out0, weights0, remaining0, c, pi, weight, out, weights, remaining, removed);
    ConstraintKeepsTotals(out0, weights0, keys, c.process, pi, weight, out, weights, removed);
    ConstraintKeepsProcesses(out0, keys, remaining0, c.process, pi, out, remaining, removed);
  }

  /** The constraints loop, in order. */
  method ApplyConstraints<P(==)>(out0: map<string, seq<P>>, weights0: map<string, real>, keys: seq<string>,
                                 remaining0: seq<P>, constrained: seq<Constrained<P>>, weight: P -> real)
    returns (out: map<string, seq<P>>, weights: map<string, real>, remaining: seq<P>)
    requires KeyedBy(out0, weights0, keys) && Balanced(out0, weights0, keys, weight)
    ensures (out, weights, remaining) == ConstrainAll(out0, weights0, remaining0, constrained, weight)
    ensures KeyedBy(out, weights, keys) && Balanced(out, weights, keys, weight)
    ensures Pooled(out, keys) + multiset(remaining) == Pooled(out0, keys) + multiset(remaining0)
  {
    out, weights, remaining := out0, weights0, remaining0;
    for i := 0 to |constrained|
      invariant KeyedBy(out, weights, keys) && Balanced(out, weights, keys, weight)
      invariant Pooled(out, keys) + multiset(remaining) == Pooled(out0, keys) + multiset(remaining0)
      invariant ConstrainAll(out, weights, remaining, constrained[i..], weight)
             == ConstrainAll(out0, weights0, remaining0, constrained, weight)
    {
      assert constrained[i..][1..] == constrained[i + 1..];
      out, weights, remaining := ConstraintStep(out, weights, keys, remaining, constrained[i], weight);
    }
  }

  /** One step of the greedy loop: `p` goes on the end of the list of the
      Pi with the least (total weight, name), whose total grows by its
      weight. */
  method PlaceLightest<P(==)>(out0: map<string, seq<P>>, weights0: map<string, real>, keys: seq<string>,
                              p: P, weight: P -> real)
    returns (out: map<string, seq<P>>, weights: map<string, real>, target: string)
    requires |keys| > 0 && KeyedBy(out0, weights0, keys)
    ensures target == MinKey(weights0, keys)
    ensures target in keys && forall k :: k in keys && k != target ==> KeyLess(weights0, target, k)
    ensures out == out0[target := out0[target] + [p]]
    ensures weights == weights0[target := weights0[target] + weight(p)]
    ensures (out, weights) == PlaceOne(out0, weights0, keys, p, weight)
  {
    target := Lightest(weights0, keys);
    out := out0[target := out0[target] + [p]];
    weights := weights0[target := weights0[target] + weight(p)];
  }

  /** One greedy step: `p` goes onto the Pi with the least (total, name),
      whose total grows by its weight. */
  function PlaceOne<P>(out: map<string, seq<P>>, weights: map<string, real>, keys: seq<string>,
                       p: P, weight: P -> real): (r: (map<string, seq<P>>, map<string, real>))
    requires |keys| > 0 && KeyedBy(out, weights, keys)
    ensures KeyedBy(r.0, r.1, keys)
  {
    var t := MinKey(weights, keys);
    (out[t := out[t] + [p]], weights[t := weights[t] + weight(p)])
  }

  /** A greedy step keeps every total right ... */
  lemma GreedyKeepsTotals<P>(out: map<string, seq<P>>, weights: map<string, real>, keys: seq<string>,
                             p: P, weight: P -> real)
    requires |keys| > 0 && KeyedBy(out, weights, keys) && Balanced(out, weights, keys, weight)
    ensures var r := PlaceOne(out, weights, keys, p, weight); Balanced(r.0, r.1, keys, weight)
  {
    var t := MinKey(weights, keys);
    assert TotalWeight([p], weight) == weight(p) by {
      assert [p][..0] == [];
    }
    BalancedAt(out, weights, keys, weight, t);
    Place(out, weights, keys, t, [p], weight(p), weight);
  }

  /** ... and adds exactly its process to the mapping. */
  lemma GreedyAddsOne<P>(out: map<string, seq<P>>, weights: map<string, real>, keys: seq<string>,
                         p: P, weight: P -> real)
    requires |keys| > 0 && KeyedBy(out, weights, keys)
    ensures Pooled(PlaceOne(out, weights, keys, p, weight).0, keys) == Pooled(out, keys) + multiset{p}
  {
    PooledAppend(out, keys, MinKey(weights, keys), [p]);
  }

  /** The greedy pass: each process in turn goes onto the Pi with the
      least (total, name) at that moment. */
  function Greedy<P>(out: map<string, seq<P>>, weights: map<string, real>, keys: seq<string>,
                     sorted: seq<P>, weight: P -> real): (r: (map<string, seq<P>>, map<string, real>))
    requires |keys| > 0 && KeyedBy(out, weights, keys)
    ensures r.0.Keys == out.Keys && r.1.Keys == weights.Keys
    decreases |sorted|
  {
    if sorted == [] then (out, weights)
    else
      var next := PlaceOne(out, weights, keys, sorted[0], weight);
      Greedy(next.0, next.1, keys, sorted[1..], weight)
  }

  /** Placing `sorted[i]` is the greedy pass's next step. */
  lemma GreedyStep<P>(out: map<string, seq<P>>, weights: map<string, real>, keys: seq<string>,
                      sorted: seq<P>, i: nat, weight: P -> real)
    requires |keys| > 0 && KeyedBy(out, weights, keys) && i < |sorted|
    ensures var next := PlaceOne(out, weights, keys, sorted[i], weight);
      Greedy(out, weights, keys, sorted[i..], weight) == Greedy(next.0, next.1, keys, sorted[i + 1..], weight)
  {
    assert sorted[i..][0] == sorted[i];
    assert sorted[i..][1..] == sorted[i + 1..];
  }

  /** The greedy pass keeps every total equal to its list's weight. */
  lemma {:induction false} GreedyKeeps<P>(out: map<string, seq<P>>, weights: map<string, real>, keys: seq<string>,
                                          sorted: seq<P>, weight: P -> real)
    requires |keys| > 0 && KeyedBy(out, weights, keys) && Balanced(out, weights, keys, weight)
    ensures var r := Greedy(out, weights, keys, sorted, weight); Balanced(r.0, r.1, keys, weight)
    decreases |sorted|
  {
    if sorted != [] {
      var next := PlaceOne(out, weights, keys, sorted[0], weight);
      GreedyKeepsTotals(out, weights, keys, sorted[0], weight);
      GreedyKeeps(next.0, next.1, keys, sorted[1..], weight);
    }
  }

  /** The greedy pass adds exactly the sorted processes to the mapping. */
  lemma {:induction false} GreedyPools<P>(out: map<string, seq<P>>, weights: map<string, real>, keys: seq<string>,
                                          sorted: seq<P>, weight: P -> real)
    requires |keys| > 0 && KeyedBy(out, weights, keys)
    ensures var r := Greedy(out, weights, keys, sorted, weight);
      KeyedBy(r.0, r.1, keys) && Pooled(r.0, keys) == Pooled(out, keys) + multiset(sorted)
    decreases |sorted|
  {
    if sorted != [] {
      var next := PlaceOne(out, weights, keys, sorted[0], weight);
      GreedyAddsOne(out, weights, keys, sorted[0], weight);
      assert multiset(sorted) == multiset{sorted[0]} + multiset(sorted[1..]) by {
        assert sorted == [sorted[0]] + sorted[1..];
      }
      GreedyPools(next.0, next.1, keys, sorted[1..], weight);
    }
  }

  /** The greedy loop over the sorted processes, in order. */
  method PackGreedy<P(==)>(out0: map<string, seq<P>>, weights0: map<string, real>, keys: seq<string>,
                           sorted: seq<P>, weight: P -> real)
    returns (out: map<string, seq<P>>, weights: map<string, real>)
    requires |keys| > 0 && KeyedBy(out0, weights0, keys) && Balanced(out0, weights0, keys, weight)
    ensures (out, weights) == Greedy(out0, weights0, keys, sorted, weight)
    ensures KeyedBy(out, weights, keys) && Balanced(out, weights, keys, weight)
    ensures Pooled(out, keys) == Pooled(out0, keys) + multiset(sorted)
  {
    out, weights := out0, weights0;
    for i := 0 to |sorted|
      invariant KeyedBy(out, weights, keys)
      invariant Greedy(out, weights, keys, sorted[i..], weight) == Greedy(out0, weights0, keys, sorted, weight)
    {
      var target;
      GreedyStep(out, weights, keys, sorted, i, weight);
      out, weights, target := PlaceLightest(out, weights, keys, sorted[i], weight);
    }
    assert sorted[|sorted|..] == [];
    GreedyKeeps(out0, weights0, keys, sorted, weight);
    GreedyPools(out0, weights0, keys, sorted, weight);
  }

  /** The mapping `assign_weighted_processes_to_pis` builds: the constraints
      first, from empty lists and zero totals, then the copies they left,
      heaviest first, each onto the Pi with least (total, name). */
  function Assignment<P(==)>(piNames: seq<string>, processes: seq<P>, constrained: seq<Constrained<P>>,
                             weight: P -> real): (r: map<string, seq<P>>)
    ensures forall k :: k in r <==> k in Keys(piNames)
  {
    var keys := Keys(piNames);
    if keys == [] then map[]
    else
      StartKeyed<P>(keys, weight);
      var c := ConstrainAll(EmptyLists(keys), Zeros(keys), processes, constrained, weight);
      Greedy(c.0, c.1, keys, SortDesc(c.2, weight), weight).0
  }

  /** Every Pi starts with an empty list ... */
  function EmptyLists<P>(keys: seq<string>): map<string, seq<P>>
  {
    map k | k in keys :: []
  }

  /** ... and a zero total. */
  function Zeros(keys: seq<string>): map<string, real>
  {
    map k | k in keys :: 0.0
  }

  /** The starting mapping holds nothing and every total is right. */
  lemma StartKeyed<P>(keys: seq<string>, weight: P -> real)
    requires forall i, j :: 0 <= i < j < |keys| ==> keys[i] != keys[j]
    ensures KeyedBy(EmptyLists<P>(keys), Zeros(keys), keys) && Balanced(EmptyLists<P>(keys), Zeros(keys), keys, weight)
    ensures Pooled(EmptyLists<P>(keys), keys) == multiset{}
  {
    PooledEmpty(EmptyLists<P>(keys), keys);
    BalancedZero(EmptyLists<P>(keys), Zeros(keys), keys, weight);
  }

  /** The constraints' result, sorted and packed greedily, is `Assignment`. */
  lemma AssignmentIs<P>(piNames: seq<string>, processes: seq<P>, constrained: seq<Constrained<P>>, weight: P -> real,
                            placed: map<string, seq<P>>, weights: map<string, real>, remaining: seq<P>,
                            out: map<string, seq<P>>, totals: map<string, real>)
    requires Keys(piNames) != [] && KeyedBy(EmptyLists<P>(Keys(piNames)), Zeros(Keys(piNames)), Keys(piNames))
    requires (placed, weights, remaining) == ConstrainAll(EmptyLists(Keys(piNames)), Zeros(Keys(piNames)), processes, constrained, weight)
    requires KeyedBy(placed, weights, Keys(piNames))
    requires (out, totals) == Greedy(placed, weights, Keys(piNames), SortDesc(remaining, weight), weight)
    ensures out == Assignment(piNames, processes, constrained, weight)
  {
  }

  /** `assign_weighted_processes_to_pis`: no Pis gives the empty mapping;
      otherwise every normalised name is a key and every process is
      assigned exactly once (as a multiset), placed by the constraints and
      then greedily as `Assignment` says. */
  method AssignWeighted<P(==)>(piNames: seq<string>, processes: seq<P>, constrained: seq<Constrained<P>>,
                               weight: P -> real)
    returns (out: map<string, seq<P>>)
    ensures out == Assignment(piNames, processes, constrained, weight)
    ensures piNames == [] ==> out == map[]
    ensures out.Keys == set k | k in Keys(piNames)
    ensures piNames != [] ==> Pooled(out, Keys(piNames)) == multiset(processes)
  {
    var keys := Keys(piNames);
    if keys == [] {
      return map[];
    }
    StartKeyed<P>(keys, weight);
    var placed, weights, remaining := ApplyConstraints(EmptyLists(keys), Zeros(keys), keys, processes, constrained, weight);
    var sorted := SortDesc(remaining, weight);
    var totals;
    out, totals := PackGreedy(placed, weights, keys, sorted, weight);
    assert Pooled(out, keys) == multiset(processes) by {
      assert Pooled(placed, keys) + multiset(sorted) == multiset(processes);
    }
    AssignmentIs(piNames, processes, constrained, weight, placed, weights, remaining, out, totals);
    assert out.Keys == set k | k in keys;
  }

  /** `ProcessPlan`: the desired processes and the pinning constraints. */
  class ProcessPlan<P(==)> {
    var desired: seq<P>
    var constraints: seq<Constrained<P>>

    constructor()
      ensures desired == [] && constraints == []
    {
      desired := [];
      constraints := [];
    }

    /** `add`: `count` more copies; a count of zero or less changes nothing. */
    method Add(process: P, count: int)
      modifies this
      ensures count <= 0 ==> desired == old(desired)
      ensures count > 0 ==> desired == old(desired) + Repeat(process, count)
      ensures constraints == old(constraints)
    {
      if count <= 0 {
        return;
      }
      desired := desired + Repeat(process, count);
    }

    /** `pin`: `count` more copies and one constraint placing them. */
    method Pin(process: P, piName: string, count: int)
      modifies this
      ensures count <= 0 ==> desired == old(desired) && constraints == old(constraints)
      ensures count > 0 ==> desired == old(desired) + Repeat(process, count)
      ensures count > 0 ==> constraints == old(constraints) + [Constrained(process, piName, count)]
    {
      if count <= 0 {
        return;
      }
      desired := desired + Repeat(process, count);
      constraints := constraints + [Constrained(process, piName, count)];
    }

    /** `assign`: the plan's processes and constraints, assigned. */
    method Assign(piNames: seq<string>, weight: P -> real) returns (out: map<string, seq<P>>)
      ensures out == Assignment(piNames, desired, constraints, weight)
      ensures out.Keys == set k | k in Keys(piNames)
      ensures piNames != [] ==> Pooled(out, Keys(piNames)) == multiset(desired)
    {
      out := AssignWeighted(piNames, desired, constraints, weight);
    }
  }
}
