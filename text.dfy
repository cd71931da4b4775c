/** The few string operations of Python's that the dumper's text relies on. */
module Text {

  function Digit(n: nat): char
    requires n < 10
  {
    "0123456789"[n]
  }

  /** `str(n)` for a non-negative Python `int`. */
  function Decimal(n: nat): (s: string)
    ensures |s| > 0
    ensures forall i :: 0 <= i < |s| ==> '0' <= s[i] <= '9'
  {
    if n < 10 then [Digit(n)] else Decimal(n / 10) + [Digit(n % 10)]
  }

  /** `int(s)` for a string of decimal digits. */
  function DigitsValue(s: string): nat
    requires forall i :: 0 <= i < |s| ==> '0' <= s[i] <= '9'
  {
    if s == [] then 0
    else 10 * DigitsValue(s[..|s| - 1]) + (s[|s| - 1] - '0') as nat
  }

  /** `int(str(n)) == n`: the decimal rendering loses nothing. */
  lemma {:induction false} DecimalRoundTrip(n: nat)
    ensures DigitsValue(Decimal(n)) == n
  {
    if n >= 10 {
      DecimalRoundTrip(n / 10);
      assert Decimal(n)[..|Decimal(n)| - 1] == Decimal(n / 10);
    }
  }

  /** `c * n` for a one-character string `c`. */
  function Repeat(c: char, n: nat): (s: string)
    ensures |s| == n && forall i :: 0 <= i < n ==> s[i] == c
  {
    seq(n, _ => c)
  }

  /** `sep.join(parts)`. */
  function Join(sep: string, parts: seq<string>): string
  {
    if parts == [] then ""
    else if |parts| == 1 then parts[0]
    else parts[0] + sep + Join(sep, parts[1..])
  }

  /** `s.startswith(prefix)`. */
  predicate StartsWith(s: string, prefix: string)
  {
    |prefix| <= |s| && s[..|prefix|] == prefix
  }

  /** A line that starts with `prefix` shares its first character. */
  lemma StartsWithHead(s: string, prefix: string)
    requires |prefix| > 0
    ensures StartsWith(s, prefix) ==> |s| > 0 && s[0] == prefix[0]
  {
    if StartsWith(s, prefix) {
      assert s[..|prefix|][0] == s[0];
    }
  }

  /** The lines that satisfy `keep`, in their original order. */
  function Select(keep: string -> bool, lines: seq<string>): (r: seq<string>)
    ensures |r| <= |lines|
    ensures forall x :: x in r <==> x in lines && keep(x)
  {
    if lines == [] then []
    else (if keep(lines[0]) then [lines[0]] else []) + Select(keep, lines[1..])
  }

  lemma {:induction false} SelectAppend(keep: string -> bool, a: seq<string>, b: seq<string>)
    ensures Select(keep, a + b) == Select(keep, a) + Select(keep, b)
  {
    if a != [] {
      assert (a + b)[1..] == a[1..] + b;
      SelectAppend(keep, a[1..], b);
    } else {
      assert a + b == b;
    }
  }

  lemma SelectAppend3(keep: string -> bool, a: seq<string>, b: seq<string>, c: seq<string>)
    ensures Select(keep, a + b + c) == Select(keep, a) + Select(keep, b) + Select(keep, c)
  {
    SelectAppend(keep, a, b);
    SelectAppend(keep, a + b, c);
  }

  /** Some line satisfies `keep` exactly when the selection is not empty. */
  lemma SelectNonEmpty(keep: string -> bool, lines: seq<string>)
    ensures (exists i :: 0 <= i < |lines| && keep(lines[i])) <==> Select(keep, lines) != []
  {
    if exists i :: 0 <= i < |lines| && keep(lines[i]) {
      var i :| 0 <= i < |lines| && keep(lines[i]);
      assert lines[i] in Select(keep, lines);
    }
  }

  lemma SelectCons(keep: string -> bool, x: string, rest: seq<string>)
    ensures Select(keep, [x] + rest) == (if keep(x) then [x] else []) + Select(keep, rest)
  {
    assert ([x] + rest)[1..] == rest;
  }

  lemma SelectNone(keep: string -> bool, lines: seq<string>)
    requires forall line :: line in lines ==> !keep(line)
    ensures Select(keep, lines) == []
  {
    if Select(keep, lines) != [] {
      assert Select(keep, lines)[0] in Select(keep, lines);
    }
  }
}
