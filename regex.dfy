/**
 * The fragment of Python's `re` that the three reply grammars use, on byte
 * strings: literal text, `.` (any byte but a newline), and the capture
 * groups `(\d+)`, `(.*)` and `(\w*)`.
 *
 * A grammar is a sequence of fields; each field is some literal lead-in
 * followed by one capture group, so a grammar has exactly one group per
 * field. `MatchAt` is the backtracking matcher (greedy groups, longest
 * first); `Matches` is an independent, relational reading of what it means
 * for a piece of text to fit a grammar with given captures, and the lemmas
 * show that the two agree.
 */
module Regex {
  import opened Wrappers
  import opened PyText

  /** A capture group: `(\d+)`, `(.*)` or `(\w*)`. */
  datatype Group = DigitGroup | AnyGroup | WordGroup

  /** Literal bytes, or an unescaped `.`. */
  datatype Atom = Lit(text: string) | Dot

  datatype Field = Field(lead: seq<Atom>, group: Group)

  type Pattern = seq<Field>

  /** One step of a flattened pattern. */
  datatype Piece = Text(text: string) | AnyByte | Capture(group: Group)

  /** `\w` on a byte pattern: ASCII letters, digits and the underscore. */
  predicate IsWordChar(c: char)
  {
    IsDigit(c) || ('a' <= c <= 'z') || ('A' <= c <= 'Z') || c == '_'
  }

  /** Whether one byte may stand inside a capture of group `g`. */
  predicate Fits(g: Group, c: char)
  {
    match g
    case DigitGroup => IsDigit(c)
    case AnyGroup => c != '\n'
    case WordGroup => IsWordChar(c)
  }

  /** `+` needs one byte, `*` none. */
  function MinLen(g: Group): nat
  {
    if g == DigitGroup then 1 else 0
  }

  /** Whether `text` is a capture group `g` can make. */
  predicate GroupOk(g: Group, text: string)
  {
    MinLen(g) <= |text| && forall k :: 0 <= k < |text| ==> Fits(g, text[k])
  }

  function AtomPieces(lead: seq<Atom>): (ps: seq<Piece>)
    ensures |ps| == |lead|
    ensures forall k :: 0 <= k < |ps| ==> !ps[k].Capture?
  {
    seq(|lead|, k requires 0 <= k < |lead| => if lead[k].Lit? then Text(lead[k].text) else AnyByte)
  }

  function Flatten(pat: Pattern): seq<Piece>
    decreases |pat|
  {
    if pat == [] then [] else AtomPieces(pat[0].lead) + [Capture(pat[0].group)] + Flatten(pat[1..])
  }

  /** The capture groups of a piece sequence, in order. */
  function Groups(ps: seq<Piece>): seq<Group>
    decreases |ps|
  {
    if ps == [] then []
    else (if ps[0].Capture? then [ps[0].group] else []) + Groups(ps[1..])
  }

  /** A successful match: the captured texts and where the match ends. */
  datatype Hit = Hit(captures: seq<string>, end: nat)

  /** The number of bytes from `i` on that group `g` can take. */
  function Run(g: Group, s: string, i: nat): (n: nat)
    requires i <= |s|
    ensures i + n <= |s|
    ensures forall j :: i <= j < i + n ==> Fits(g, s[j])
    ensures i + n < |s| ==> !Fits(g, s[i + n])
    decreases |s| - i
  {
    if i < |s| && Fits(g, s[i]) then 1 + Run(g, s, i + 1) else 0
  }

  /**
   * The matcher, as Python's backtracking engine runs it: the pieces are
   * tried left to right from position `i`; a group first takes as many
   * bytes as it can and gives them back one at a time while the rest of
   * the pattern fails.
   */
  function MatchAt(ps: seq<Piece>, s: string, i: nat): Option<Hit>
    requires i <= |s|
    decreases |ps|, |s| - i + 1
  {
    if ps == [] then Some(Hit([], i))
    else match ps[0]
      case Text(t) =>
        if i + |t| <= |s| && s[i..i + |t|] == t then MatchAt(ps[1..], s, i + |t|) else None
      case AnyByte =>
        if i < |s| && s[i] != '\n' then MatchAt(ps[1..], s, i + 1) else None
      case Capture(g) =>
        Backtrack(ps, s, i, Run(g, s, i))
  }

  /** Let the leading group take `k` bytes, then fewer, until the rest matches. */
  function Backtrack(ps: seq<Piece>, s: string, i: nat, k: nat): Option<Hit>
    requires ps != [] && ps[0].Capture?
    requires i + k <= |s|
    requires forall j :: i <= j < i + k ==> Fits(ps[0].group, s[j])
    decreases |ps|, k
  {
    if k < MinLen(ps[0].group) then None
    else match MatchAt(ps[1..], s, i + k)
      case Some(h) => Some(Hit([s[i..i + k]] + h.captures, h.end))
      case None => if k == 0 then None else Backtrack(ps, s, i, k - 1)
  }

  /**
   * The reference reading: `seg` is exactly the text the pieces describe,
   * with `caps` as the captured texts in order.
   */
  predicate Matches(ps: seq<Piece>, seg: string, caps: seq<string>)
    decreases |ps|
  {
    if ps == [] then seg == [] && caps == []
    else match ps[0]
      case Text(t) =>
        |t| <= |seg| && seg[..|t|] == t && Matches(ps[1..], seg[|t|..], caps)
      case AnyByte =>
        1 <= |seg| && seg[0] != '\n' && Matches(ps[1..], seg[1..], caps)
      case Capture(g) =>
        && 1 <= |caps|
        && |caps[0]| <= |seg|
        && seg[..|caps[0]|] == caps[0]
        && GroupOk(g, caps[0])
        && Matches(ps[1..], seg[|caps[0]|..], caps[1..])
  }

  /** What `MatchAt` finds does fit the pattern. */
  lemma {:induction false} MatchAtSound(ps: seq<Piece>, s: string, i: nat)
    requires i <= |s|
    requires MatchAt(ps, s, i).Some?
    ensures var h := MatchAt(ps, s, i).value;
      i <= h.end <= |s| && Matches(ps, s[i..h.end], h.captures)
    decreases |ps|, |s| - i + 1
  {
    if ps != [] {
      var h := MatchAt(ps, s, i).value;
      match ps[0]
      case Text(t) =>
        assert MatchAt(ps, s, i) == MatchAt(ps[1..], s, i + |t|);
        MatchAtSound(ps[1..], s, i + |t|);
        SkipThenRest(ps, s, i, |t|, h.end, h.captures);
      case AnyByte =>
        assert MatchAt(ps, s, i) == MatchAt(ps[1..], s, i + 1);
        MatchAtSound(ps[1..], s, i + 1);
        SkipThenRest(ps, s, i, 1, h.end, h.captures);
      case Capture(g) =>
        BacktrackSound(ps, s, i, Run(g, s, i));
    }
  }

  lemma {:induction false} BacktrackSound(ps: seq<Piece>, s: string, i: nat, k: nat)
    requires ps != [] && ps[0].Capture?
    requires i + k <= |s|
    requires forall j :: i <= j < i + k ==> Fits(ps[0].group, s[j])
    requires Backtrack(ps, s, i, k).Some?
    ensures var h := Backtrack(ps, s, i, k).value;
      i <= h.end <= |s| && Matches(ps, s[i..h.end], h.captures)
    decreases |ps|, k
  {
    var rest := MatchAt(ps[1..], s, i + k);
    if rest.Some? {
      MatchAtSound(ps[1..], s, i + k);
      CaptureThenRest(ps, s, i, k, rest.value.end, rest.value.captures);
    } else {
      BacktrackSound(ps, s, i, k - 1);
    }
  }

  /**
   * A literal or a `.` that the `n` bytes at `i` satisfy, followed by a
   * match of the remaining pieces, matches the whole.
   */
  lemma SkipThenRest(ps: seq<Piece>, s: string, i: nat, n: nat, e: nat, caps: seq<string>)
    requires ps != [] && !ps[0].Capture?
    requires i + n <= e <= |s|
    requires ps[0].Text? ==> n == |ps[0].text| && s[i..i + n] == ps[0].text
    requires ps[0].AnyByte? ==> n == 1 && s[i] != '\n'
    requires Matches(ps[1..], s[i + n..e], caps)
    ensures Matches(ps, s[i..e], caps)
  {
    var seg := s[i..e];
    assert seg[..n] == s[i..i + n];
    assert seg[n..] == s[i + n..e];
  }

  /** A capture of `k` fitting bytes followed by a match of the remaining pieces matches the whole. */
  lemma CaptureThenRest(ps: seq<Piece>, s: string, i: nat, k: nat, e: nat, caps: seq<string>)
    requires ps != [] && ps[0].Capture?
    requires i + k <= e <= |s|
    requires MinLen(ps[0].group) <= k
    requires forall j :: i <= j < i + k ==> Fits(ps[0].group, s[j])
    requires Matches(ps[1..], s[i + k..e], caps)
    ensures Matches(ps, s[i..e], [s[i..i + k]] + caps)
  {
    var seg := s[i..e];
    var cap := s[i..i + k];
    assert ([cap] + caps)[0] == cap && ([cap] + caps)[1..] == caps;
    assert seg[..|cap|] == cap;
    assert seg[|cap|..] == s[i + k..e];
    assert GroupOk(ps[0].group, cap) by {
      forall j | 0 <= j < |cap| ensures Fits(ps[0].group, cap[j]) {
        assert cap[j] == s[i + j];
      }
    }
  }

  /** Anything that fits the pattern from `i` on is found by `MatchAt`. */
  lemma {:induction false} MatchAtComplete(ps: seq<Piece>, s: string, i: nat, e: nat, caps: seq<string>)
    requires i <= e <= |s|
    requires Matches(ps, s[i..e], caps)
    ensures MatchAt(ps, s, i).Some?
    decreases |ps|, 1
  {
    if ps != [] {
      var seg := s[i..e];
      match ps[0]
      case Text(t) =>
        assert s[i..i + |t|] == seg[..|t|];
        assert seg[|t|..] == s[i + |t|..e];
        MatchAtComplete(ps[1..], s, i + |t|, e, caps);
      case AnyByte =>
        assert s[i] == seg[0];
        assert seg[1..] == s[i + 1..e];
        MatchAtComplete(ps[1..], s, i + 1, e, caps);
      case Capture(g) =>
        CaptureComplete(ps, s, i, e, caps);
    }
  }

  /** The case of `MatchAtComplete` where the pattern starts with a group. */
  lemma {:induction false} CaptureComplete(ps: seq<Piece>, s: string, i: nat, e: nat, caps: seq<string>)
    requires ps != [] && ps[0].Capture?
    requires i <= e <= |s|
    requires Matches(ps, s[i..e], caps)
    ensures MatchAt(ps, s, i).Some?
    decreases |ps|, 0
  {
    var g := ps[0].group;
    var seg := s[i..e];
    var k0 := |caps[0]|;
    assert seg[k0..] == s[i + k0..e];
    MatchAtComplete(ps[1..], s, i + k0, e, caps[1..]);
    forall j | i <= j < i + k0 ensures Fits(g, s[j]) {
      assert s[j] == seg[..k0][j - i];
    }
    RunCovers(g, s, i, k0);
    BacktrackReaches(ps, s, i, Run(g, s, i), k0);
  }

  /** A greedy run is at least as long as any stretch of bytes the group accepts. */
  lemma RunCovers(g: Group, s: string, i: nat, k0: nat)
    requires i + k0 <= |s|
    requires forall j :: i <= j < i + k0 ==> Fits(g, s[j])
    ensures k0 <= Run(g, s, i)
  {
  }

  /** Giving back bytes one at a time reaches any length at which the rest matches. */
  lemma {:induction false} BacktrackReaches(ps: seq<Piece>, s: string, i: nat, k: nat, k0: nat)
    requires ps != [] && ps[0].Capture?
    requires i + k <= |s|
    requires forall j :: i <= j < i + k ==> Fits(ps[0].group, s[j])
    requires MinLen(ps[0].group) <= k0 <= k
    requires MatchAt(ps[1..], s, i + k0).Some?
    ensures Backtrack(ps, s, i, k).Some?
    decreases k
  {
    if MatchAt(ps[1..], s, i + k).None? {
      BacktrackReaches(ps, s, i, k - 1, k0);
    }
  }

  /**
   * `pattern.search(s)` from position `i` on, as `findall(s)[0]` sees it:
   * the captures of the match at the leftmost start where one exists.
   */
  function SearchFrom(ps: seq<Piece>, s: string, i: nat): Option<seq<string>>
    requires i <= |s|
    decreases |s| - i
  {
    match MatchAt(ps, s, i)
    case Some(h) => Some(h.captures)
    case None => if i == |s| then None else SearchFrom(ps, s, i + 1)
  }

  /** The captures of the first match of `pat` anywhere in `s` (`findall(s)[0]`). */
  function FindFirst(pat: Pattern, s: string): Option<seq<string>>
  {
    SearchFrom(Flatten(pat), s, 0)
  }

  /** Some stretch of `s` fits the pattern with the captures `caps`. */
  ghost predicate FitsSomewhere(pat: Pattern, s: string, caps: seq<string>)
  {
    exists j, e :: 0 <= j <= e <= |s| && Matches(Flatten(pat), s[j..e], caps)
  }

  /** The grammar occurs somewhere in the line. */
  ghost predicate Occurs(pat: Pattern, s: string)
  {
    exists j, e, caps :: 0 <= j <= e <= |s| && Matches(Flatten(pat), s[j..e], caps)
  }

  lemma {:induction false} SearchFromSound(ps: seq<Piece>, s: string, i: nat)
    requires i <= |s|
    requires SearchFrom(ps, s, i).Some?
    ensures exists j, e :: i <= j <= e <= |s| && Matches(ps, s[j..e], SearchFrom(ps, s, i).value)
    decreases |s| - i
  {
    var m := MatchAt(ps, s, i);
    if m.Some? {
      MatchAtSound(ps, s, i);
      assert Matches(ps, s[i..m.value.end], m.value.captures);
    } else {
      SearchFromSound(ps, s, i + 1);
    }
  }

  lemma {:induction false} SearchFromComplete(ps: seq<Piece>, s: string, i: nat, j: nat, e: nat, caps: seq<string>)
    requires i <= j <= e <= |s|
    requires Matches(ps, s[j..e], caps)
    ensures SearchFrom(ps, s, i).Some?
    decreases |s| - i
  {
    if MatchAt(ps, s, i).None? {
      if i == j {
        MatchAtComplete(ps, s, j, e, caps);
      } else {
        SearchFromComplete(ps, s, i + 1, j, e, caps);
      }
    }
  }

  /** No stretch of `s` starting in `[i, j)` fits the pieces, whatever the captures. */
  ghost predicate NoMatchBetween(ps: seq<Piece>, s: string, i: nat, j: nat)
  {
    forall j', e, caps :: i <= j' < j && j' <= e <= |s| ==> !Matches(ps, s[j'..e], caps)
  }

  /**
   * The search reports the match at the leftmost start: the captures are
   * those the matcher finds at some `j`, and no stretch starting before `j`
   * fits the pattern with any captures.
   */
  lemma {:induction false} SearchFromLeftmost(ps: seq<Piece>, s: string, i: nat)
    requires i <= |s|
    requires SearchFrom(ps, s, i).Some?
    ensures exists j :: (i <= j <= |s| && MatchAt(ps, s, j).Some?
      && SearchFrom(ps, s, i).value == MatchAt(ps, s, j).value.captures
      && NoMatchBetween(ps, s, i, j))
    decreases |s| - i
  {
    if MatchAt(ps, s, i).Some? {
      assert NoMatchBetween(ps, s, i, i);
    } else {
      assert i < |s| && SearchFrom(ps, s, i) == SearchFrom(ps, s, i + 1);
      SearchFromLeftmost(ps, s, i + 1);
      var j :| i + 1 <= j <= |s| && MatchAt(ps, s, j).Some?
        && SearchFrom(ps, s, i + 1).value == MatchAt(ps, s, j).value.captures
        && NoMatchBetween(ps, s, i + 1, j);
      NoMatchWhereMatcherFails(ps, s, i);
      assert NoMatchBetween(ps, s, i, j);
    }
  }

  /** Where the matcher fails, no stretch starting there fits. */
  lemma NoMatchWhereMatcherFails(ps: seq<Piece>, s: string, i: nat)
    requires i <= |s|
    requires MatchAt(ps, s, i).None?
    ensures NoMatchBetween(ps, s, i, i + 1)
  {
    forall e, caps | i <= e <= |s|
      ensures !Matches(ps, s[i..e], caps)
    {
      if Matches(ps, s[i..e], caps) {
        MatchAtComplete(ps, s, i, e, caps);
      }
    }
  }

  /** After the leading group ends at `p`, the rest of the pattern matches. */
  function RestFrom(ps: seq<Piece>, s: string, i: nat, p: nat): Option<Hit>
    requires ps != []
    requires i <= p <= |s|
  {
    match MatchAt(ps[1..], s, p)
    case Some(h) => Some(Hit([s[i..p]] + h.captures, h.end))
    case None => None
  }

  /**
   * `p` is where a greedy leading group that may take up to `k` bytes from
   * `i` stops: the rest of the pattern matches after it, and after no
   * longer take.
   */
  ghost predicate GreedyEnd(ps: seq<Piece>, s: string, i: nat, k: nat, p: nat)
    requires ps != [] && ps[0].Capture?
    requires i + k <= |s|
  {
    && i + MinLen(ps[0].group) <= p <= i + k
    && MatchAt(ps[1..], s, p).Some?
    && forall m :: p < m <= i + k ==> MatchAt(ps[1..], s, m).None?
  }

  /**
   * Greedy choice: a leading group that may take up to `k` bytes takes the
   * most bytes after which the rest of the pattern still matches.
   */
  lemma {:induction false} BacktrackGreedy(ps: seq<Piece>, s: string, i: nat, k: nat)
    requires ps != [] && ps[0].Capture?
    requires i + k <= |s|
    requires forall j :: i <= j < i + k ==> Fits(ps[0].group, s[j])
    requires Backtrack(ps, s, i, k).Some?
    ensures exists p :: GreedyEnd(ps, s, i, k, p) && Backtrack(ps, s, i, k) == RestFrom(ps, s, i, p)
    decreases k
  {
    if MatchAt(ps[1..], s, i + k).Some? {
      assert GreedyEnd(ps, s, i, k, i + k);
      assert Backtrack(ps, s, i, k) == RestFrom(ps, s, i, i + k);
    } else {
      assert Backtrack(ps, s, i, k) == Backtrack(ps, s, i, k - 1);
      BacktrackGreedy(ps, s, i, k - 1);
      var p :| GreedyEnd(ps, s, i, k - 1, p) && Backtrack(ps, s, i, k - 1) == RestFrom(ps, s, i, p);
      assert GreedyEnd(ps, s, i, k, p);
    }
  }

  /**
   * A match that starts with a group gives that group the longest run of
   * bytes it can take after which the rest of the pattern matches.
   */
  lemma MatchAtGreedy(ps: seq<Piece>, s: string, i: nat)
    requires i <= |s|
    requires ps != [] && ps[0].Capture?
    requires MatchAt(ps, s, i).Some?
    ensures exists p :: GreedyEnd(ps, s, i, Run(ps[0].group, s, i), p) && MatchAt(ps, s, i) == RestFrom(ps, s, i, p)
  {
    assert MatchAt(ps, s, i) == Backtrack(ps, s, i, Run(ps[0].group, s, i));
    BacktrackGreedy(ps, s, i, Run(ps[0].group, s, i));
  }

  /**
   * The search succeeds exactly when the grammar occurs somewhere in the
   * line, and what it returns are the captures of such an occurrence.
   */
  lemma FindFirstIffOccurs(pat: Pattern, s: string)
    ensures FindFirst(pat, s).Some? <==> Occurs(pat, s)
    ensures FindFirst(pat, s).Some? ==> FitsSomewhere(pat, s, FindFirst(pat, s).value)
  {
    var ps := Flatten(pat);
    if FindFirst(pat, s).Some? {
      SearchFromSound(ps, s, 0);
    }
    if Occurs(pat, s) {
      var j, e, caps :| 0 <= j <= e <= |s| && Matches(ps, s[j..e], caps);
      SearchFromComplete(ps, s, 0, j, e, caps);
    }
  }

  /**
   * Matching is a search, not a whole-line match: a stretch that fits is
   * found whatever comes before and after it.
   */
  lemma SearchIgnoresSurroundings(pat: Pattern, before: string, seg: string, after: string, caps: seq<string>)
    requires Matches(Flatten(pat), seg, caps)
    ensures FindFirst(pat, before + seg + after).Some?
  {
    var s := before + seg + after;
    assert s[|before|..|before| + |seg|] == seg;
    SearchFromComplete(Flatten(pat), s, 0, |before|, |before| + |seg|, caps);
  }

  // ---------------------------------------------------------------------------
  // One capture per field

  lemma {:induction false} GroupsAppend(a: seq<Piece>, b: seq<Piece>)
    ensures Groups(a + b) == Groups(a) + Groups(b)
    decreases |a|
  {
    if a == [] {
      assert a + b == b;
    } else {
      assert (a + b)[0] == a[0];
      assert (a + b)[1..] == a[1..] + b;
      GroupsAppend(a[1..], b);
    }
  }

  lemma {:induction false} GroupsOfAtoms(lead: seq<Atom>)
    ensures Groups(AtomPieces(lead)) == []
    decreases |lead|
  {
    if lead != [] {
      assert AtomPieces(lead)[1..] == AtomPieces(lead[1..]);
      GroupsOfAtoms(lead[1..]);
    }
  }

  /** The group kinds of a pattern, one per field. */
  function FieldGroups(pat: Pattern): (gs: seq<Group>)
    ensures |gs| == |pat|
  {
    seq(|pat|, k requires 0 <= k < |pat| => pat[k].group)
  }

  lemma {:induction false} GroupsOfFlatten(pat: Pattern)
    ensures Groups(Flatten(pat)) == FieldGroups(pat)
    decreases |pat|
  {
    if pat != [] {
      var head := AtomPieces(pat[0].lead);
      GroupsAppend(head + [Capture(pat[0].group)], Flatten(pat[1..]));
      GroupsAppend(head, [Capture(pat[0].group)]);
      GroupsOfAtoms(pat[0].lead);
      GroupsOfFlatten(pat[1..]);
      assert FieldGroups(pat) == [pat[0].group] + FieldGroups(pat[1..]);
    }
  }

  /** A fit has one capture per group, each one a text its group can make. */
  lemma {:induction false} MatchesShape(ps: seq<Piece>, seg: string, caps: seq<string>)
    requires Matches(ps, seg, caps)
    ensures |caps| == |Groups(ps)|
    ensures forall k :: 0 <= k < |caps| ==> GroupOk(Groups(ps)[k], caps[k])
    decreases |ps|
  {
    if ps != [] {
      match ps[0]
      case Text(t) =>
        MatchesShape(ps[1..], seg[|t|..], caps);
      case AnyByte =>
        MatchesShape(ps[1..], seg[1..], caps);
      case Capture(g) =>
        MatchesShape(ps[1..], seg[|caps[0]|..], caps[1..]);
    }
  }

  /**
   * What the search returns for a grammar holds one text per field, and
   * each one is a text that field's group can capture.
   */
  lemma FindFirstShape(pat: Pattern, s: string)
    requires FindFirst(pat, s).Some?
    ensures |FindFirst(pat, s).value| == |pat|
    ensures forall k :: 0 <= k < |pat| ==> GroupOk(pat[k].group, FindFirst(pat, s).value[k])
  {
    var caps := FindFirst(pat, s).value;
    FindFirstIffOccurs(pat, s);
    var j, e :| 0 <= j <= e <= |s| && Matches(Flatten(pat), s[j..e], caps);
    MatchesShape(Flatten(pat), s[j..e], caps);
    GroupsOfFlatten(pat);
  }
}
