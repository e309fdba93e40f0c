/**
 * The Python built-ins on byte strings that the probe relies on:
 * `bytes.isdigit`, `bytes.split` with and without a split limit, `int()`
 * and `str()` / `%d` of an integer.
 *
 * A byte string is modelled as a `string` whose characters stand for the
 * bytes; `.decode('utf-8')` is the identity on it.
 */
module PyText {
  import opened Wrappers

  /** The Python exceptions the core can raise on its own. */
  datatype PyError = ValueError | IndexError | TypeError | KeyError

  predicate IsDigit(c: char) { '0' <= c <= '9' }

  predicate AllDigits(s: string) { forall k :: 0 <= k < |s| ==> IsDigit(s[k]) }

  /** `bytes.isdigit()`: non-empty and every byte an ASCII decimal digit. */
  predicate IsDigits(s: string) { |s| > 0 && AllDigits(s) }

  function DigitValue(c: char): nat
    requires IsDigit(c)
  {
    c as int - '0' as int
  }

  function DigitChar(d: nat): (c: char)
    requires d < 10
    ensures IsDigit(c) && DigitValue(c) == d
  {
    ('0' as int + d) as char
  }

  /** The number a string of decimal digits denotes, most significant digit first. */
  function DecimalValue(s: string): nat
    requires AllDigits(s)
    decreases |s|
  {
    if s == [] then 0 else DecimalValue(s[..|s| - 1]) * 10 + DigitValue(s[|s| - 1])
  }

  /** `str(n)` of a natural number: its decimal digits, without a leading zero. */
  function ShowNat(n: nat): (s: string)
    ensures IsDigits(s)
    ensures (s[0] == '0') == (n == 0)
    decreases n
  {
    if n < 10 then [DigitChar(n)] else ShowNat(n / 10) + [DigitChar(n % 10)]
  }

  /** `str(n)` and `'%d' % n` of an integer. */
  function ShowInt(n: int): (s: string)
    ensures |s| > 0 && (s[0] == '-') == (n < 0)
  {
    if n < 0 then "-" + ShowNat(-n) else ShowNat(n)
  }

  /** Reading back the digits `str` writes gives the number again. */
  lemma {:induction false} DecimalValueShowNat(n: nat)
    ensures DecimalValue(ShowNat(n)) == n
    decreases n
  {
    var s := ShowNat(n);
    if n < 10 {
      assert s[..|s| - 1] == [];
    } else {
      assert s[..|s| - 1] == ShowNat(n / 10);
      DecimalValueShowNat(n / 10);
    }
  }

  // ---------------------------------------------------------------------------
  // int()

  /** The bytes `int()` ignores around a number: space, \t, \n, \v, \f and \r. */
  predicate IsSpace(c: char)
  {
    c == ' ' || c == '\t' || c == '\n' || c == '\r' || c as int == 11 || c as int == 12
  }

  function TrimLeft(s: string): (r: string)
    ensures r == [] || !IsSpace(r[0])
    ensures |r| <= |s| && r == s[|s| - |r|..]
    decreases |s|
  {
    if s != [] && IsSpace(s[0]) then TrimLeft(s[1..]) else s
  }

  function TrimRight(s: string): (r: string)
    ensures r == [] || !IsSpace(r[|r| - 1])
    ensures r <= s
    decreases |s|
  {
    if s != [] && IsSpace(s[|s| - 1]) then TrimRight(s[..|s| - 1]) else s
  }

  function Strip(s: string): string
  {
    TrimRight(TrimLeft(s))
  }

  predicate DigitOrUnderscore(c: char) { IsDigit(c) || c == '_' }

  /**
   * The digits of a Python integer literal in base 10: decimal digits, where
   * a single underscore may stand between two digits.
   */
  predicate IsNumeral(s: string)
  {
    && |s| > 0
    && IsDigit(s[0])
    && IsDigit(s[|s| - 1])
    && (forall k :: 0 <= k < |s| ==> DigitOrUnderscore(s[k]))
    && (forall k :: 0 <= k < |s| - 1 ==> IsDigit(s[k]) || IsDigit(s[k + 1]))
  }

  function DropUnderscores(s: string): (r: string)
    requires forall k :: 0 <= k < |s| ==> DigitOrUnderscore(s[k])
    ensures AllDigits(r)
    ensures AllDigits(s) ==> r == s
    decreases |s|
  {
    if s == [] then []
    else
      var head := if s[0] == '_' then [] else [s[0]];
      var rest := DropUnderscores(s[1..]);
      assert AllDigits(head + rest) by {
        forall k | 0 <= k < |head + rest| ensures IsDigit((head + rest)[k]) {
          if k >= |head| {
            assert (head + rest)[k] == rest[k - |head|];
          } else {
            assert DigitOrUnderscore(s[0]) && s[0] != '_';
          }
        }
      }
      head + rest
  }

  /**
   * `int(token)` on a byte string: `Some(value)`, or `None` where Python
   * raises ValueError. Surrounding white space is ignored and one sign is
   * allowed in front of the digits.
   */
  function PyInt(token: string): Option<int>
  {
    var t := Strip(token);
    var signed := |t| > 0 && (t[0] == '-' || t[0] == '+');
    var body := if signed then t[1..] else t;
    if IsNumeral(body) then
      var m: int := DecimalValue(DropUnderscores(body));
      Some(if signed && t[0] == '-' then -m else m)
    else None
  }

  /** `int()` reads back every number that `str()` writes. */
  lemma PyIntShowInt(n: int)
    ensures PyInt(ShowInt(n)) == Some(n)
  {
    var s := ShowInt(n);
    var m: nat := if n < 0 then -n else n;
    var digits := ShowNat(m);
    assert !IsSpace(s[0]) && !IsSpace(s[|s| - 1]) by {
      if n < 0 { assert s[|s| - 1] == digits[|digits| - 1]; }
    }
    assert TrimLeft(s) == s;
    assert Strip(s) == s;
    if n < 0 {
      assert s[1..] == digits;
    }
    DecimalValueShowNat(m);
  }

  /** On a plain run of digits `int()` and the decimal reading agree. */
  lemma PyIntOfDigits(s: string)
    requires IsDigits(s)
    ensures PyInt(s) == Some(DecimalValue(s))
  {
    assert TrimLeft(s) == s;
    assert Strip(s) == s;
  }

  // ---------------------------------------------------------------------------
  // split

  /**
   * `s.split(sep)` with an explicit one-byte separator: every occurrence
   * splits, empty pieces are kept.
   */
  function Split(s: string, sep: char): (parts: seq<string>)
    ensures |parts| >= 1
    ensures forall k :: 0 <= k < |parts| ==> sep !in parts[k]
    decreases |s|
  {
    if s == [] then [[]]
    else
      var rest := Split(s[1..], sep);
      if s[0] == sep then [[]] + rest else [[s[0]] + rest[0]] + rest[1..]
  }

  /** `bytes([sep]).join(parts)`: the inverse of splitting. */
  function Join(parts: seq<string>, sep: char): string
    requires |parts| >= 1
    decreases |parts|
  {
    if |parts| == 1 then parts[0] else parts[0] + [sep] + Join(parts[1..], sep)
  }

  lemma {:induction false} JoinSplit(s: string, sep: char)
    ensures Join(Split(s, sep), sep) == s
    decreases |s|
  {
    if s != [] {
      var rest := Split(s[1..], sep);
      JoinSplit(s[1..], sep);
      var parts := Split(s, sep);
      if s[0] == sep {
        assert parts[1..] == rest;
      } else if |rest| > 1 {
        assert parts[1..] == rest[1..];
      }
    }
  }

  lemma {:induction false} SplitAround(a: string, sep: char, b: string)
    requires sep !in a
    ensures Split(a + [sep] + b, sep) == [a] + Split(b, sep)
    decreases |a|
  {
    var s := a + [sep] + b;
    if a == [] {
      assert s[1..] == b;
    } else {
      assert s[1..] == a[1..] + [sep] + b;
      SplitAround(a[1..], sep, b);
      assert [a[0]] + a[1..] == a;
    }
  }

  lemma {:induction false} SplitWhole(a: string, sep: char)
    requires sep !in a
    ensures Split(a, sep) == [a]
    decreases |a|
  {
    if a != [] {
      SplitWhole(a[1..], sep);
      assert [a[0]] + a[1..] == a;
    }
  }

  /** Splitting the join of separator-free pieces gives the pieces back. */
  lemma {:induction false} SplitJoin(parts: seq<string>, sep: char)
    requires |parts| >= 1
    requires forall k :: 0 <= k < |parts| ==> sep !in parts[k]
    ensures Split(Join(parts, sep), sep) == parts
    decreases |parts|
  {
    if |parts| == 1 {
      SplitWhole(parts[0], sep);
    } else {
      SplitJoin(parts[1..], sep);
      SplitAround(parts[0], sep, Join(parts[1..], sep));
    }
  }

  /** The first position of `c` in `s`, if any. */
  function Find(s: string, c: char): (r: Option<nat>)
    ensures r.Some? ==> r.value < |s| && s[r.value] == c && c !in s[..r.value]
    ensures r.None? ==> c !in s
    decreases |s|
  {
    if s == [] then None
    else if s[0] == c then Some(0)
    else match Find(s[1..], c)
      case None => None
      case Some(i) =>
        assert s[..i + 1] == [s[0]] + s[1..][..i];
        Some(i + 1)
  }

  /**
   * `s.split(sep, maxsplit)`: split at the first `maxsplit` occurrences of
   * `sep` only; the rest of the string stays whole in the last piece.
   */
  function SplitMax(s: string, sep: char, maxsplit: nat): (parts: seq<string>)
    ensures 1 <= |parts| <= maxsplit + 1
    decreases maxsplit
  {
    if maxsplit == 0 then [s]
    else match Find(s, sep)
      case None => [s]
      case Some(i) => [s[..i]] + SplitMax(s[i + 1..], sep, maxsplit - 1)
  }

  /** Splitting once at the first separator, then the rest. */
  lemma SplitMaxStep(s: string, sep: char, maxsplit: nat)
    requires maxsplit > 0 && Find(s, sep).Some?
    ensures var i := Find(s, sep).value;
      SplitMax(s, sep, maxsplit) == [s[..i]] + SplitMax(s[i + 1..], sep, maxsplit - 1)
  {
  }

  /** Without a split left, or without a separator, the string stays whole. */
  lemma SplitMaxWhole(s: string, sep: char, maxsplit: nat)
    requires maxsplit == 0 || Find(s, sep).None?
    ensures SplitMax(s, sep, maxsplit) == [s]
  {
  }

  /** A split with a limit leaves separators only where the limit stopped it: in the last piece. */
  lemma {:induction false} SplitMaxPieces(s: string, sep: char, maxsplit: nat)
    ensures PiecesFree(SplitMax(s, sep, maxsplit), sep, maxsplit)
    decreases maxsplit
  {
    if maxsplit > 0 && Find(s, sep).Some? {
      var i := Find(s, sep).value;
      SplitMaxPieces(s[i + 1..], sep, maxsplit - 1);
      SplitMaxStep(s, sep, maxsplit);
      PiecesFreeCons(s[..i], SplitMax(s[i + 1..], sep, maxsplit - 1), sep, maxsplit);
    } else {
      SplitMaxWhole(s, sep, maxsplit);
    }
  }

  /**
   * Every piece but the last is free of the separator, and so is the last
   * when there are no more than `maxsplit` pieces.
   */
  predicate PiecesFree(parts: seq<string>, sep: char, maxsplit: nat)
    requires |parts| >= 1
  {
    && (forall k :: 0 <= k < |parts| - 1 ==> sep !in parts[k])
    && (|parts| <= maxsplit ==> sep !in parts[|parts| - 1])
  }

  lemma PiecesFreeCons(head: string, tail: seq<string>, sep: char, maxsplit: nat)
    requires maxsplit > 0 && |tail| >= 1 && sep !in head
    requires PiecesFree(tail, sep, maxsplit - 1)
    ensures PiecesFree([head] + tail, sep, maxsplit)
  {
    var parts := [head] + tail;
    forall k | 0 <= k < |parts| - 1 ensures sep !in parts[k] {
      if k > 0 {
        assert parts[k] == tail[k - 1];
      }
    }
    assert parts[|parts| - 1] == tail[|tail| - 1];
  }

  /** A string is what lies before position `i`, the character there, and what follows. */
  lemma CutAround(s: string, i: nat)
    requires i < |s|
    ensures s[..i] + [s[i]] + s[i + 1..] == s
  {
    assert s == s[..i] + s[i..];
    assert s[i..] == [s[i]] + s[i + 1..];
  }

  /** Joining a first piece onto the rest puts one separator between them. */
  lemma JoinCons(first: string, rest: seq<string>, sep: char)
    requires |rest| >= 1
    ensures Join([first] + rest, sep) == first + [sep] + Join(rest, sep)
  {
    assert ([first] + rest)[1..] == rest;
  }

  lemma {:induction false} JoinSplitMax(s: string, sep: char, maxsplit: nat)
    ensures Join(SplitMax(s, sep, maxsplit), sep) == s
    decreases maxsplit
  {
    if maxsplit > 0 && Find(s, sep).Some? {
      var i := Find(s, sep).value;
      JoinSplitMax(s[i + 1..], sep, maxsplit - 1);
      JoinSplitMaxStep(s, sep, maxsplit, i);
    } else {
      SplitMaxWhole(s, sep, maxsplit);
    }
  }

  lemma JoinSplitMaxStep(s: string, sep: char, maxsplit: nat, i: nat)
    requires maxsplit > 0 && Find(s, sep) == Some(i) && i < |s|
    requires Join(SplitMax(s[i + 1..], sep, maxsplit - 1), sep) == s[i + 1..]
    ensures Join(SplitMax(s, sep, maxsplit), sep) == s
  {
    var tail := SplitMax(s[i + 1..], sep, maxsplit - 1);
    SplitMaxStep(s, sep, maxsplit);
    JoinCons(s[..i], tail, sep);
    CutAround(s, i);
  }
  /** How many times `c` occurs in `s`. */
  function Occurrences(s: string, c: char): nat
    decreases |s|
  {
    if s == [] then 0 else (if s[0] == c then 1 else 0) + Occurrences(s[1..], c)
  }

  lemma {:induction false} OccurrencesAbsent(s: string, c: char)
    requires c !in s
    ensures Occurrences(s, c) == 0
    decreases |s|
  {
    if s != [] {
      OccurrencesAbsent(s[1..], c);
    }
  }

  lemma {:induction false} OccurrencesAppend(a: string, b: string, c: char)
    ensures Occurrences(a + b, c) == Occurrences(a, c) + Occurrences(b, c)
    decreases |a|
  {
    if a != [] {
      assert (a + b)[1..] == a[1..] + b;
      OccurrencesAppend(a[1..], b, c);
    } else {
      assert a + b == b;
    }
  }

  /** `s.split(sep, maxsplit)` splits as often as it can, up to `maxsplit` times. */
  lemma {:induction false} SplitMaxCount(s: string, sep: char, maxsplit: nat)
    ensures |SplitMax(s, sep, maxsplit)| - 1 == Min(Occurrences(s, sep), maxsplit)
    decreases maxsplit
  {
    if Find(s, sep).None? {
      SplitMaxWhole(s, sep, maxsplit);
      OccurrencesAbsent(s, sep);
    } else if maxsplit > 0 {
      var i := Find(s, sep).value;
      SplitMaxCount(s[i + 1..], sep, maxsplit - 1);
      SplitMaxCountStep(s, sep, maxsplit, i);
    } else {
      SplitMaxWhole(s, sep, maxsplit);
    }
  }

  lemma SplitMaxCountStep(s: string, sep: char, maxsplit: nat, i: nat)
    requires maxsplit > 0 && Find(s, sep) == Some(i) && i < |s|
    requires |SplitMax(s[i + 1..], sep, maxsplit - 1)| - 1 == Min(Occurrences(s[i + 1..], sep), maxsplit - 1)
    ensures |SplitMax(s, sep, maxsplit)| - 1 == Min(Occurrences(s, sep), maxsplit)
  {
    SplitMaxStep(s, sep, maxsplit);
    OccurrencesAround(s, i, sep);
  }

  function Min(a: nat, b: nat): nat
  {
    if a < b then a else b
  }

  /** The separators of `s` are those before `i`, the one at `i`, and those after. */
  lemma OccurrencesAround(s: string, i: nat, sep: char)
    requires i < |s| && s[i] == sep && sep !in s[..i]
    ensures Occurrences(s, sep) == 1 + Occurrences(s[i + 1..], sep)
  {
    CutAround(s, i);
    OccurrencesAppend(s[..i] + [s[i]], s[i + 1..], sep);
    OccurrencesAppend(s[..i], [s[i]], sep);
    OccurrencesAbsent(s[..i], sep);
    assert Occurrences([s[i]], sep) == 1;
  }

  /** The first occurrence of `c` after a `c`-free prefix is right after that prefix. */
  lemma FindAfter(a: string, c: char, rest: string)
    requires c !in a
    ensures Find(a + [c] + rest, c) == Some(|a|)
  {
    var s := a + [c] + rest;
    assert s[|a|] == c;
    assert s[..|a|] == a;
  }
  // ---------------------------------------------------------------------------
  // replace

  /** `s.replace(from, to)` for single characters: every `from` becomes `to`. */
  function Replace(s: string, from: char, to: char): (r: string)
    ensures |r| == |s|
    ensures forall k :: 0 <= k < |s| ==> r[k] == if s[k] == from then to else s[k]
    decreases |s|
  {
    if s == [] then [] else [if s[0] == from then to else s[0]] + Replace(s[1..], from, to)
  }

  /** `str(n)` never holds a space. */
  lemma ShowIntNoSpace(n: int)
    ensures ' ' !in ShowInt(n)
  {
    var digits := ShowNat(if n < 0 then -n else n);
    assert ' ' !in digits by {
      forall k | 0 <= k < |digits| ensures digits[k] != ' ' {
        assert IsDigit(digits[k]);
      }
    }
  }

  /** Splitting yields one piece more than there are separators. */
  lemma {:induction false} SplitCount(s: string, sep: char)
    ensures |Split(s, sep)| == Occurrences(s, sep) + 1
    decreases |s|
  {
    if s != [] {
      SplitCount(s[1..], sep);
    }
  }
}
