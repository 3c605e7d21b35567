/**
  The parts of PHP's runtime the identifier actions rely on, written out:
  decoded JSON scalars and `$array[$key]` reads, integer interpolation
  ("{$n}"), the normalisation of decimal strings into integer array keys,
  loose comparison with an integer, trim($s, '/'), and array_merge() on arrays
  with string keys.
*/
module Php {
  import opened Values

  // ---------------------------------------------------------------------
  // Decoded JSON

  /** A scalar of a JSON object decoded with json_decode($body, TRUE). */
  datatype Json = JNull | JBool(b: bool) | JInt(n: int) | JText(s: string)

  /** A decoded JSON object: its members by name. */
  type JsonObject = map<string, Json>

  /** `$body[$key]` where `$body` is a decoded body (None when the body did not
      decode to an object): a missing body or a missing member reads as null. */
  function Member(body: Option<JsonObject>, key: string): (v: Json)
    ensures v != JNull ==> body.Some? && key in body.value && body.value[key] == v
    ensures body.Some? && key in body.value ==> v == body.value[key]
  {
    if body.Some? && key in body.value then body.value[key] else JNull
  }

  // ---------------------------------------------------------------------
  // Integers as decimal text

  predicate IsDigit(c: char) { '0' <= c <= '9' }

  predicate IsDigits(s: string) { forall i :: 0 <= i < |s| ==> IsDigit(s[i]) }

  function DigitChar(d: nat): (c: char)
    requires d < 10
    ensures IsDigit(c)
  {
    (('0' as int) + d) as char
  }

  function DigitValue(c: char): (d: nat)
    requires IsDigit(c)
    ensures d < 10 && DigitChar(d) == c
  {
    assert '0' as int <= c as int <= '9' as int;
    (c as int) - ('0' as int)
  }

  /** Decimal text of a natural number, most significant digit first. */
  function NatText(n: nat): (s: string)
    ensures |s| > 0 && IsDigits(s)
    decreases n
  {
    if n < 10 then [DigitChar(n)] else NatText(n / 10) + [DigitChar(n % 10)]
  }

  /** The text PHP produces when an integer is interpolated into a string. */
  function IntText(n: int): (s: string)
    ensures |s| > 0
  {
    if n < 0 then "-" + NatText(-n) else NatText(n)
  }

  /** The value of a string of decimal digits. */
  function DigitsValue(s: string): nat
    requires IsDigits(s)
  {
    if s == [] then 0 else DigitsValue(s[..|s| - 1]) * 10 + DigitValue(s[|s| - 1])
  }

  /** Decimal digits without a superfluous leading zero. */
  predicate IsCanonical(s: string)
  {
    |s| > 0 && IsDigits(s) && (s[0] == '0' ==> |s| == 1)
  }

  /** The integer a string stands for when PHP uses it as an array key: a
      canonical decimal, optionally negative (but never "-0"); every other
      string stays a string key. */
  function DecimalValue(s: string): Option<int>
  {
    if IsCanonical(s) then Some(DigitsValue(s))
    else if |s| > 1 && s[0] == '-' && IsCanonical(s[1..]) && s[1] != '0' then Some(-(DigitsValue(s[1..]) as int))
    else None
  }

  /** A canonical text that starts with '0' is "0" itself. */
  lemma LeadingZero(s: string)
    requires IsCanonical(s)
    ensures s[0] == '0' ==> DigitsValue(s) == 0
  {
    if s[0] == '0' {
      assert s[..|s| - 1] == [];
    }
  }

  lemma {:induction false} DigitsValuePositive(s: string)
    requires IsDigits(s) && |s| > 0 && s[0] != '0'
    ensures DigitsValue(s) > 0
    decreases |s|
  {
    if |s| > 1 {
      DigitsValuePositive(s[..|s| - 1]);
    }
  }

  /** NatText yields canonical digits whose value is the number itself. */
  lemma {:induction false} NatTextValue(n: nat)
    ensures IsCanonical(NatText(n)) && DigitsValue(NatText(n)) == n
    decreases n
  {
    var s := NatText(n);
    if n < 10 {
      assert s[..|s| - 1] == [];
    } else {
      var t := NatText(n / 10);
      NatTextValue(n / 10);
      assert s == t + [DigitChar(n % 10)];
      assert s[..|s| - 1] == t;
      assert s[0] == t[0];
      LeadingZero(t);
    }
  }

  /** Canonical digits are the NatText of their own value. */
  lemma {:induction false} CanonicalText(s: string)
    requires IsCanonical(s)
    ensures NatText(DigitsValue(s)) == s
    decreases |s|
  {
    var v := DigitsValue(s);
    var last := DigitValue(s[|s| - 1]);
    if |s| == 1 {
      assert s[..|s| - 1] == [];
      assert DigitsValue(s[..|s| - 1]) == 0;
      assert v == last;
    } else {
      var t := s[..|s| - 1];
      assert t[0] == s[0] && s[0] != '0';
      DigitsValuePositive(t);
      CanonicalText(t);
      var x := DigitsValue(t);
      assert v == x * 10 + last;
      assert v / 10 == x && v % 10 == last;
      assert s == t + [s[|s| - 1]];
    }
  }

  /** Integer-to-text and key normalisation are inverse to each other: a
      string is read as the integer n exactly when it is the text of n. */
  lemma DecimalValueOfText(s: string, n: int)
    ensures DecimalValue(s) == Some(n) <==> s == IntText(n)
  {
    if s == IntText(n) {
      if n >= 0 {
        NatTextValue(n);
      } else {
        var t := NatText(-n);
        NatTextValue(-n);
        assert s[1..] == t;
        LeadingZero(t);
      }
    }
    if DecimalValue(s) == Some(n) {
      if IsCanonical(s) {
        CanonicalText(s);
      } else {
        var t := s[1..];
        DigitsValuePositive(t);
        CanonicalText(t);
        assert s == "-" + t;
      }
    }
  }

  // ---------------------------------------------------------------------
  // Array keys, string conversion and loose comparison

  /** An array key after PHP's normalisation. */
  datatype Key = IntKey(i: int) | StrKey(s: string)

  /** The key a JSON scalar stands for in `$array[$v]`. */
  function KeyOf(v: Json): (k: Key)
    ensures v.JInt? ==> k == IntKey(v.n)
    ensures v.JText? ==> (k.IntKey? <==> DecimalValue(v.s).Some?)
  {
    match v
    case JNull => StrKey("")
    case JBool(b) => IntKey(if b then 1 else 0)
    case JInt(n) => IntKey(n)
    case JText(s) => if DecimalValue(s).Some? then IntKey(DecimalValue(s).value) else StrKey(s)
  }

  /** A text member and an integer member name the same array slot exactly
      when the text is the integer's decimal form. */
  lemma TextKeyIsIntKey(s: string, n: int)
    ensures KeyOf(JText(s)) == IntKey(n) <==> s == IntText(n)
  {
    DecimalValueOfText(s, n);
  }

  /** String conversion of a scalar, as `.` and interpolation perform it. */
  function AsString(v: Json): string
  {
    match v
    case JNull => ""
    case JBool(b) => if b then "1" else ""
    case JInt(n) => IntText(n)
    case JText(s) => s
  }

  /** `$v == $n` for a scalar and an integer. A string equals the integer when
      it is the integer's decimal text. */
  function LooseEqualsInt(v: Json, n: int): (eq: bool)
    ensures v.JInt? ==> (eq <==> v.n == n)
    ensures v.JText? ==> (eq <==> DecimalValue(v.s) == Some(n))
  {
    DecimalValueOfText(if v.JText? then v.s else "", n);
    match v
    case JNull => n == 0
    case JBool(b) => b == (n != 0)
    case JInt(m) => m == n
    case JText(s) => s == IntText(n)
  }

  // ---------------------------------------------------------------------
  // trim($s, '/')

  /** ltrim($s, '/'): the longest suffix of s that does not start with '/'. */
  function TrimLeading(s: string): (r: string)
    ensures |r| <= |s|
    decreases |s|
  {
    if s != [] && s[0] == '/' then TrimLeading(s[1..]) else s
  }

  /** What ltrim leaves is a suffix of s that does not start with '/', and
      everything it dropped was '/'. */
  lemma {:induction false} TrimLeadingShape(s: string)
    ensures var r := TrimLeading(s);
            && |r| <= |s| && r == s[|s| - |r|..]
            && (forall k :: 0 <= k < |s| - |r| ==> s[k] == '/')
            && (r == [] || r[0] != '/')
    decreases |s|
  {
    if s != [] && s[0] == '/' {
      TrimLeadingShape(s[1..]);
      var r := TrimLeading(s);
      assert s[1..][|s| - 1 - |r|..] == s[|s| - |r|..];
      forall k | 0 < k < |s| - |r| ensures s[k] == '/' {
        assert s[k] == s[1..][k - 1];
      }
    }
  }

  /** rtrim($s, '/'): the longest prefix of s that does not end with '/'. */
  function TrimTrailing(s: string): (r: string)
    ensures |r| <= |s|
    decreases |s|
  {
    if s != [] && s[|s| - 1] == '/' then TrimTrailing(s[..|s| - 1]) else s
  }

  /** What rtrim leaves is a prefix of s that does not end with '/', and
      everything it dropped was '/'. */
  lemma {:induction false} TrimTrailingShape(s: string)
    ensures var r := TrimTrailing(s);
            && |r| <= |s| && r == s[..|r|]
            && (forall k :: |r| <= k < |s| ==> s[k] == '/')
            && (r == [] || r[|r| - 1] != '/')
    decreases |s|
  {
    if s != [] && s[|s| - 1] == '/' {
      var t := s[..|s| - 1];
      TrimTrailingShape(t);
      var r := TrimTrailing(s);
      assert t[..|r|] == s[..|r|];
      forall k | |r| <= k < |s| - 1 ensures s[k] == '/' {
        assert s[k] == t[k];
      }
    }
  }

  /** trim($s, '/'): every leading and every trailing '/' removed. */
  function TrimSlashes(s: string): string
  {
    TrimTrailing(TrimLeading(s))
  }

  /** The trimmed path neither starts nor ends with '/', and it is the part of
      s between a run of leading slashes and a run of trailing slashes: the
      slashes inside are kept. */
  lemma TrimSlashesShape(s: string)
    ensures var r := TrimSlashes(s);
            && (r == [] || (r[0] != '/' && r[|r| - 1] != '/'))
            && var lead := |s| - |TrimLeading(s)|;
               && lead + |r| <= |s| && r == s[lead..lead + |r|]
               && (forall k :: 0 <= k < lead ==> s[k] == '/')
               && (forall k :: lead + |r| <= k < |s| ==> s[k] == '/')
  {
    var l := TrimLeading(s);
    var lead := |s| - |l|;
    var r := TrimTrailing(l);
    TrimLeadingShape(s);
    TrimTrailingShape(l);
    assert l == s[lead..] && r == l[..|r|];
    assert r == s[lead..lead + |r|];
    forall k | lead + |r| <= k < |s| ensures s[k] == '/' {
      assert s[k] == l[k - lead];
    }
    if r != [] {
      assert r[0] == l[0];
    }
  }

  /** Trimming a trimmed path changes nothing. */
  lemma TrimSlashesIdempotent(s: string)
    ensures TrimSlashes(TrimSlashes(s)) == TrimSlashes(s)
  {
    var r := TrimSlashes(s);
    TrimSlashesShape(s);
    TrimTrailingShape(TrimLeading(s));
    assert TrimLeading(r) == r;
    assert TrimTrailing(r) == r;
  }

  /** Runs of edge slashes all go and the inner slashes stay: "//a/b//"
      becomes "a/b", not "/a/b/". */
  lemma TrimSlashesExample()
    ensures TrimSlashes("//a/b//") == "a/b"
  {
    assert TrimLeading("a/b//") == "a/b//";
    assert "/a/b//"[1..] == "a/b//";
    assert TrimLeading("/a/b//") == "a/b//";
    assert "//a/b//"[1..] == "/a/b//";
    assert TrimLeading("//a/b//") == "a/b//";
    assert TrimTrailing("a/b") == "a/b";
    assert "a/b/"[..3] == "a/b";
    assert TrimTrailing("a/b/") == "a/b";
    assert "a/b//"[..4] == "a/b/";
  }

  // ---------------------------------------------------------------------
  // Arrays with string keys, in insertion order

  /** A PHP array whose keys are (non-numeric) strings, in insertion order. */
  type Assoc = seq<(string, string)>

  function KeysOf(a: Assoc): (ks: seq<string>)
    ensures |ks| == |a|
  {
    if a == [] then [] else [a[0].0] + KeysOf(a[1..])
  }

  predicate Distinct(ks: seq<string>)
  {
    forall i, j :: 0 <= i < j < |ks| ==> ks[i] != ks[j]
  }

  /** `$a[$k] ?? NULL`: the value stored under k. */
  function Lookup(a: Assoc, k: string): (v: Option<string>)
    ensures v.Some? <==> k in KeysOf(a)
  {
    if a == [] then None else if a[0].0 == k then Some(a[0].1) else Lookup(a[1..], k)
  }

  /** `$a[$k] = $v`: an existing key keeps its position and takes the new
      value; a new key is appended. */
  function Store(a: Assoc, k: string, v: string): (r: Assoc)
    ensures k in KeysOf(a) ==> KeysOf(r) == KeysOf(a)
    ensures k !in KeysOf(a) ==> KeysOf(r) == KeysOf(a) + [k]
  {
    if a == [] then [(k, v)]
    else if a[0].0 == k then [(k, v)] + a[1..]
    else
      var rest := Store(a[1..], k, v);
      assert KeysOf([a[0]] + rest) == [a[0].0] + KeysOf(rest);
      [a[0]] + rest
  }

  /** After storing v under k, k reads v and every other key reads as before. */
  lemma {:induction false} StoreLookup(a: Assoc, k: string, v: string, key: string)
    ensures Lookup(Store(a, k, v), key) == if key == k then Some(v) else Lookup(a, key)
    decreases |a|
  {
    if a != [] && a[0].0 != k {
      StoreLookup(a[1..], k, v, key);
      assert ([a[0]] + Store(a[1..], k, v))[1..] == Store(a[1..], k, v);
    } else if a != [] {
      assert ([(k, v)] + a[1..])[1..] == a[1..];
    }
  }

  /** array_merge($a, $b) for string keys: the entries of $b stored, in order,
      over those of $a. */
  function ArrayMerge(a: Assoc, b: Assoc): Assoc
    decreases |b|
  {
    if b == [] then a else ArrayMerge(Store(a, b[0].0, b[0].1), b[1..])
  }

  /** The keys of ks that are not in drop, in their order. */
  function Without(ks: seq<string>, drop: seq<string>): (r: seq<string>)
    ensures |r| <= |ks|
    ensures forall x :: x in r <==> x in ks && x !in drop
  {
    if ks == [] then []
    else (if ks[0] in drop then [] else [ks[0]]) + Without(ks[1..], drop)
  }

  lemma DistinctTail(ks: seq<string>)
    requires Distinct(ks) && |ks| > 0
    ensures Distinct(ks[1..]) && ks[0] !in ks[1..]
  {
    forall i, j | 0 <= i < j < |ks| - 1 ensures ks[1..][i] != ks[1..][j] {
      assert ks[1..][i] == ks[i + 1] && ks[1..][j] == ks[j + 1];
    }
  }

  lemma WithoutCons(k: string, ks: seq<string>, drop: seq<string>)
    ensures Without([k] + ks, drop) == (if k in drop then [] else [k]) + Without(ks, drop)
  {
    assert ([k] + ks)[1..] == ks;
  }

  lemma {:induction false} WithoutSkipsAbsent(ks: seq<string>, drop: seq<string>, k: string)
    requires k !in ks
    ensures Without(ks, drop + [k]) == Without(ks, drop)
    decreases |ks|
  {
    if ks != [] {
      WithoutSkipsAbsent(ks[1..], drop, k);
    }
  }

  /** Merging a key that is new to the target appends it. */
  lemma MergeKeysFresh(ka: seq<string>, k: string, kb: seq<string>)
    requires k !in ka && k !in kb
    ensures (ka + [k]) + Without(kb, ka + [k]) == ka + Without([k] + kb, ka)
  {
    WithoutCons(k, kb, ka);
    WithoutSkipsAbsent(kb, ka, k);
    assert (ka + [k]) + Without(kb, ka) == ka + ([k] + Without(kb, ka));
  }

  /** Merging a key the target already has leaves its keys as they are. */
  lemma MergeKeysPresent(ka: seq<string>, k: string, kb: seq<string>)
    requires k in ka
    ensures Without(kb, ka) == Without([k] + kb, ka)
  {
    WithoutCons(k, kb, ka);
  }

  /** The keys of a merge: those of $a in their order, then the keys of $b
      that $a lacks, in $b's order. */
  lemma {:induction false} ArrayMergeKeys(a: Assoc, b: Assoc)
    requires Distinct(KeysOf(b))
    ensures KeysOf(ArrayMerge(a, b)) == KeysOf(a) + Without(KeysOf(b), KeysOf(a))
    decreases |b|
  {
    if b != [] {
      var (k, v) := b[0];
      var kb := KeysOf(b[1..]);
      assert KeysOf(b) == [k] + kb;
      assert KeysOf(b)[1..] == kb;
      DistinctTail(KeysOf(b));
      ArrayMergeKeys(Store(a, k, v), b[1..]);
      if k in KeysOf(a) {
        MergeKeysPresent(KeysOf(a), k, kb);
      } else {
        MergeKeysFresh(KeysOf(a), k, kb);
      }
    }
  }

  /** The value of a merge under a key: $b's if $b has the key, else $a's. */
  lemma {:induction false} ArrayMergeLookup(a: Assoc, b: Assoc, key: string)
    requires Distinct(KeysOf(b))
    ensures Lookup(ArrayMerge(a, b), key) == if key in KeysOf(b) then Lookup(b, key) else Lookup(a, key)
    decreases |b|
  {
    if b != [] {
      var (k, v) := b[0];
      assert KeysOf(b)[1..] == KeysOf(b[1..]);
      DistinctTail(KeysOf(b));
      ArrayMergeLookup(Store(a, k, v), b[1..], key);
      StoreLookup(a, k, v, key);
      assert key in KeysOf(b) <==> key == k || key in KeysOf(b[1..]);
    }
  }

  /** A merge of arrays is an array: no key twice. */
  lemma {:induction false} ArrayMergeDistinct(a: Assoc, b: Assoc)
    requires Distinct(KeysOf(a))
    ensures Distinct(KeysOf(ArrayMerge(a, b)))
    decreases |b|
  {
    if b != [] {
      ArrayMergeDistinct(Store(a, b[0].0, b[0].1), b[1..]);
    }
  }
}
