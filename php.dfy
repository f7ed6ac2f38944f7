/** PHP value semantics the facade relies on: scalars, the `(string)` cast,
    `ltrim`/`rtrim` with a character list, PHP 8 `substr`, and the array
    union operator `+`. */
module Php {

  datatype Option<T> = None | Some(value: T)

  newtype byte = x: int | 0 <= x < 256

  /** A PHP scalar, as far as the facade inspects one. */
  datatype Value = Null | Bool(b: bool) | Int(i: int) | Str(s: string)

  function Digit(d: nat): (c: char)
    requires d < 10
    ensures '0' <= c <= '9'
  {
    ('0' as int + d) as char
  }

  /** Decimal notation of a natural number, most significant digit first. */
  function NatToDecimal(n: nat): (r: string)
    ensures |r| > 0
    ensures forall k :: 0 <= k < |r| ==> '0' <= r[k] <= '9'
    decreases n
  {
    if n < 10 then [Digit(n)] else NatToDecimal(n / 10) + [Digit(n % 10)]
  }

  /** PHP's rendering of an integer as a string. */
  function IntToDecimal(i: int): (r: string)
    ensures |r| > 0
    ensures (i < 0) == (r[0] == '-')
  {
    if i < 0 then "-" + NatToDecimal(-i) else NatToDecimal(i)
  }

  /** PHP's `(string)` cast of a scalar: null and false become "", true "1". */
  function ToStr(v: Value): (r: string)
    ensures r == [] <==> v == Null || v == Bool(false) || v == Str([])
    ensures v.Str? ==> r == v.s
  {
    match v
    case Null => ""
    case Bool(b) => if b then "1" else ""
    case Int(i) => IntToDecimal(i)
    case Str(s) => s
  }

  /** `ltrim($s, $chars)`: `s` without its longest prefix made of characters
      of `cs` (characterised by `LTrimSpec`). */
  function LTrim(s: string, cs: set<char>): (r: string)
    ensures |r| <= |s|
    decreases |s|
  {
    if |s| > 0 && s[0] in cs then LTrim(s[1..], cs) else s
  }

  /** `rtrim($s, $chars)`: `s` without its longest suffix made of characters
      of `cs` (characterised by `RTrimSpec`). */
  function RTrim(s: string, cs: set<char>): (r: string)
    ensures |r| <= |s|
    decreases |s|
  {
    if |s| > 0 && s[|s| - 1] in cs then RTrim(s[..|s| - 1], cs) else s
  }

  /** `ltrim` keeps a suffix of its input, everything it removed is in the
      character list, and what it keeps does not start with such a character. */
  lemma {:induction false} LTrimSpec(s: string, cs: set<char>)
    ensures var r := LTrim(s, cs);
      && r == s[|s| - |r|..]
      && (forall k :: 0 <= k < |s| - |r| ==> s[k] in cs)
      && (r == [] || r[0] !in cs)
    decreases |s|
  {
    if |s| > 0 && s[0] in cs {
      LTrimSpec(s[1..], cs);
      var r := LTrim(s[1..], cs);
      assert s[1..][|s| - 1 - |r|..] == s[|s| - |r|..];
      forall k | 0 <= k < |s| - |r|
        ensures s[k] in cs
      {
        if k > 0 {
          assert s[k] == s[1..][k - 1];
        }
      }
    }
  }

  /** `rtrim` keeps a prefix of its input, everything it removed is in the
      character list, and what it keeps does not end with such a character. */
  lemma {:induction false} RTrimSpec(s: string, cs: set<char>)
    ensures var r := RTrim(s, cs);
      && r == s[..|r|]
      && (forall k :: |r| <= k < |s| ==> s[k] in cs)
      && (r == [] || r[|r| - 1] !in cs)
    decreases |s|
  {
    if |s| > 0 && s[|s| - 1] in cs {
      RTrimSpec(s[..|s| - 1], cs);
      var r := RTrim(s[..|s| - 1], cs);
      assert s[..|s| - 1][..|r|] == s[..|r|];
      forall k | |r| <= k < |s|
        ensures s[k] in cs
      {
        if k < |s| - 1 {
          assert s[k] == s[..|s| - 1][k];
        }
      }
    }
  }

  /** PHP 8 `substr($s, $start)` for a non-negative start: the characters from
      `start` on, and "" once `start` reaches or passes the end. */
  function Substr(s: string, start: nat): (r: string)
    ensures |r| == if start <= |s| then |s| - start else 0
  {
    if start <= |s| then s[start..] else []
  }

  /** PHP's array union `$a + $b`: every entry of `a`, then the entries of `b`
      whose key `a` lacks. On a key collision the LEFT operand wins. */
  function Plus<K(==), V>(a: map<K, V>, b: map<K, V>): (r: map<K, V>)
    ensures r.Keys == a.Keys + b.Keys
    ensures forall k :: k in a ==> r[k] == a[k]
    ensures forall k :: k in b && k !in a ==> r[k] == b[k]
  {
    b + a
  }

  /** `isset($m[$k])`: the key is present and its value is not null. */
  predicate IsSet<K(==)>(m: map<K, Value>, k: K)
  {
    k in m && m[k] != Null
  }

  /** `$m[$k]` in PHP 8: an absent key reads as null. */
  function Lookup<K(==)>(m: map<K, Value>, k: K): (v: Value)
  {
    if k in m then m[k] else Null
  }

  /** A string with no leading character of `cs` is its own `ltrim`. */
  lemma LTrimNoop(s: string, cs: set<char>)
    requires s == [] || s[0] !in cs
    ensures LTrim(s, cs) == s
  {
  }

  /** A string with no trailing character of `cs` is its own `rtrim`. */
  lemma RTrimNoop(s: string, cs: set<char>)
    requires s == [] || s[|s| - 1] !in cs
    ensures RTrim(s, cs) == s
  {
  }

  /** Unless `ltrim` removes everything, it keeps the last character. */
  lemma LTrimKeepsLast(s: string, cs: set<char>)
    ensures var r := LTrim(s, cs); r == [] || r[|r| - 1] == s[|s| - 1]
  {
    LTrimSpec(s, cs);
  }

  /** `ltrim` of a concatenation: once the left part has something left
      after trimming, the right part is kept whole. */
  lemma {:induction false} LTrimAppend(s: string, t: string, cs: set<char>)
    ensures LTrim(s + t, cs) == if LTrim(s, cs) == [] then LTrim(t, cs) else LTrim(s, cs) + t
    decreases |s|
  {
    if s == [] {
      assert s + t == t;
    } else if s[0] in cs {
      assert (s + t)[1..] == s[1..] + t;
      LTrimAppend(s[1..], t, cs);
    } else {
      assert (s + t)[0] == s[0];
    }
  }
}
