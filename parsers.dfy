/**
 * The `which` reply parser (heimon/parsers.py): three fixed reply grammars,
 * tried in order (heimdall, horton, tribble); the first that occurs in the
 * line wins, its captures are coerced (digits to int, anything else to
 * text) and mapped into that component's record, which is handed to the
 * callback once.
 */
module Parsers {
  import opened Wrappers
  import opened PyText
  import opened Regex

  /** A captured group after coercion: `int(d)` or `d.decode('utf-8')`. */
  datatype Value = Int(i: int) | Str(s: string)

  /**
   * The coercion of one captured group: an int exactly when the capture is
   * non-empty and all ASCII digits (`bytes.isdigit`), the text otherwise.
   * Where it converts, `int()` accepts the capture and gives that number.
   */
  function Coerce(d: string): (v: Value)
    ensures v.Int? <==> IsDigits(d)
    ensures v.Str? ==> v.s == d
    ensures v.Int? ==> v.i >= 0 && PyInt(d) == Some(v.i)
  {
    if IsDigits(d) then PyIntOfDigits(d); Int(DecimalValue(d)) else Str(d)
  }

  /** Coercion reads back the decimal text of every natural number. */
  lemma CoerceShowNat(n: nat)
    ensures Coerce(ShowNat(n)) == Int(n)
  {
    DecimalValueShowNat(n);
  }

  // ---------------------------------------------------------------------------
  // The three grammars. Every `.` left unescaped in the source (in
  // "system.fsh" and after "Gosford Park") matches any byte but a newline.

  const ImageTag: seq<Atom> := [Lit("(<img src='fsh://system"), Dot, Lit("fsh:86' /> You are connected to ")]

  /** RE_HEIMDALL: port, id, qtemp, players, player index, global id, map. */
  const HeimdallGrammar: Pattern := [
    Field(ImageTag + [Lit("Heimdall [")], DigitGroup),
    Field([Lit(":")], DigitGroup),
    Field([Lit("] (QTEMP ")], DigitGroup),
    Field([Lit("). There are ")], DigitGroup),
    Field([Lit(" players on this Heimdall, of which you are player index ")], DigitGroup),
    Field([Lit(" with globalid ")], DigitGroup),
    Field([Lit(", and you are on map ")], DigitGroup)
  ]

  /** RE_HORTON: host, port, qtemp, players, player index, global id, version. */
  const HortonGrammar: Pattern := [
    Field(ImageTag + [Lit("Horton [")], AnyGroup),
    Field([Lit(":")], DigitGroup),
    Field([Lit("] (QTEMP ")], DigitGroup),
    Field([Lit("). There are ")], DigitGroup),
    Field([Lit(" players in this horton, of which you are the player index ")], DigitGroup),
    Field([Lit(" with global id ")], DigitGroup),
    Field([Lit(". It's a beautiful day in Gosford Park"), Dot, Lit(" Horton is running version: ")], WordGroup)
  ]

  /**
   * RE_TRIBBLE: id, qtemp, players, player index, global id, x, y, the
   * "feels like" text, version.
   */
  const TribbleGrammar: Pattern := [
    Field(ImageTag + [Lit("tribble [")], DigitGroup),
    Field([Lit("] (QTEMP <b>")], DigitGroup),
    Field([Lit("</b>). There are ")], DigitGroup),
    Field([Lit(" players on this tribble, of which you are player index ")], DigitGroup),
    Field([Lit(" with global id ")], DigitGroup),
    Field([Lit(". You are exactly at (")], DigitGroup),
    Field([Lit(",")], DigitGroup),
    Field([Lit("). This tribble feels like ")], AnyGroup),
    Field([Lit(" and is running version: ")], WordGroup)
  ]

  // ---------------------------------------------------------------------------
  // Records

  datatype HeimdallMine = HeimdallMine(playerIndex: Value, globalId: Value, tribbleId: Value)
  datatype HeimdallInfo = HeimdallInfo(id: Value, port: Value, qtemp: Value, numPlayers: Value, my: HeimdallMine)

  datatype HortonMine = HortonMine(playerIndex: Value, globalId: Value)
  datatype HortonInfo = HortonInfo(address: (Value, Value), qtemp: Value, version: Value, numPlayers: Value, my: HortonMine)

  datatype TribbleMine = TribbleMine(playerIndex: Value, globalId: Value, coords: (Value, Value))
  /** `mapId` is the record's 'map' entry. */
  datatype TribbleInfo = TribbleInfo(id: Value, qtemp: Value, version: Value, mapId: Value, numPlayers: Value, my: TribbleMine)

  /** A parsed reply; its 'type' tag is the variant. */
  datatype Reply = HeimdallReply(heimdall: HeimdallInfo) | HortonReply(horton: HortonInfo) | TribbleReply(tribble: TribbleInfo)

  /** The captures a heimdall record was built from, in capture order. */
  function HeimdallCaptures(h: HeimdallInfo): seq<Value>
  {
    [h.port, h.id, h.qtemp, h.numPlayers, h.my.playerIndex, h.my.globalId, h.my.tribbleId]
  }

  function HortonCaptures(h: HortonInfo): seq<Value>
  {
    [h.address.0, h.address.1, h.qtemp, h.numPlayers, h.my.playerIndex, h.my.globalId, h.version]
  }

  function TribbleCaptures(t: TribbleInfo): seq<Value>
  {
    [t.id, t.qtemp, t.numPlayers, t.my.playerIndex, t.my.globalId, t.my.coords.0, t.my.coords.1, t.mapId, t.version]
  }

  /**
   * parse_heimdall: capture 1 is the port, capture 2 the id, the last one
   * (the map number) goes to my.tribble_id; no capture is lost or repeated.
   */
  function ParseHeimdall(data: seq<Value>): (h: HeimdallInfo)
    requires |data| == 7
    ensures HeimdallCaptures(h) == data
  {
    HeimdallInfo(
      id := data[1], port := data[0], qtemp := data[2], numPlayers := data[3],
      my := HeimdallMine(playerIndex := data[4], globalId := data[5], tribbleId := data[6]))
  }

  /** parse_horton: the address is (capture 1, capture 2), the version capture 7. */
  function ParseHorton(data: seq<Value>): (h: HortonInfo)
    requires |data| == 7
    ensures HortonCaptures(h) == data
  {
    HortonInfo(
      address := (data[0], data[1]), qtemp := data[2], version := data[6], numPlayers := data[3],
      my := HortonMine(playerIndex := data[4], globalId := data[5]))
  }

  /**
   * parse_tribble: my.coords is (capture 6, capture 7), 'map' is capture 8
   * (the "feels like" text) and the version capture 9.
   */
  function ParseTribble(data: seq<Value>): (t: TribbleInfo)
    requires |data| == 9
    ensures TribbleCaptures(t) == data
  {
    TribbleInfo(
      id := data[0], qtemp := data[1], version := data[8], mapId := data[7], numPlayers := data[2],
      my := TribbleMine(playerIndex := data[3], globalId := data[4], coords := (data[5], data[6])))
  }

  // ---------------------------------------------------------------------------
  // Dispatch

  datatype Kind = HeimdallKind | HortonKind | TribbleKind

  /** The order of the `handlers` dictionary, which `parse` iterates. */
  const Order: seq<Kind> := [HeimdallKind, HortonKind, TribbleKind]

  function Rank(k: Kind): nat
  {
    match k
    case HeimdallKind => 0
    case HortonKind => 1
    case TribbleKind => 2
  }

  function Grammar(k: Kind): Pattern
  {
    match k
    case HeimdallKind => HeimdallGrammar
    case HortonKind => HortonGrammar
    case TribbleKind => TribbleGrammar
  }

  function KindOf(r: Reply): Kind
  {
    match r
    case HeimdallReply(_) => HeimdallKind
    case HortonReply(_) => HortonKind
    case TribbleReply(_) => TribbleKind
  }

  function Build(k: Kind, data: seq<Value>): (r: Reply)
    requires |data| == |Grammar(k)|
    ensures KindOf(r) == k
  {
    match k
    case HeimdallKind => HeimdallReply(ParseHeimdall(data))
    case HortonKind => HortonReply(ParseHorton(data))
    case TribbleKind => TribbleReply(ParseTribble(data))
  }

  /**
   * try_handle without its callback: the coerced captures of the first
   * match of the grammar anywhere in the line. It succeeds exactly when
   * the grammar occurs in the line, yields one value per group, and every
   * `(\d+)` group becomes an int.
   */
  function TryHandle(line: string, pat: Pattern): (r: Option<seq<Value>>)
    ensures r.Some? <==> Occurs(pat, line)
    ensures r.Some? ==> |r.value| == |pat|
    ensures r.Some? ==> forall k :: 0 <= k < |pat| && pat[k].group == DigitGroup ==> r.value[k].Int?
  {
    FindFirstIffOccurs(pat, line);
    match FindFirst(pat, line)
    case None => None
    case Some(caps) =>
      FindFirstShape(pat, line);
      Some(seq(|caps|, k requires 0 <= k < |caps| => Coerce(caps[k])))
  }

  /** One handler of `parse`: its grammar, then its record builder. */
  function Handle(line: string, k: Kind): (r: Option<Reply>)
    ensures r.Some? ==> KindOf(r.value) == k
  {
    match TryHandle(line, Grammar(k))
    case None => None
    case Some(data) => Some(Build(k, data))
  }

  /** A handler fails exactly when its grammar does not occur in the line. */
  lemma HandleMisses(line: string, k: Kind)
    ensures Handle(line, k).None? <==> !Occurs(Grammar(k), line)
  {
  }

  /** What each handler makes of the line, in the order `parse` tries them. */
  function Handles(line: string): (rs: seq<Option<Reply>>)
    ensures |rs| == |Order|
  {
    seq(|Order|, j requires 0 <= j < |Order| => Handle(line, Order[j]))
  }

  /** The handler at each position of the order is that kind's handler. */
  lemma HandlesAt(line: string, k: Kind)
    ensures Rank(k) < |Order| && Order[Rank(k)] == k
    ensures Handles(line)[Rank(k)] == Handle(line, k)
  {
  }

  /** Position `j` of the results is the handler of the `j`-th kind of the order. */
  lemma HandlesIndex(line: string, j: nat)
    requires j < |Order|
    ensures Rank(Order[j]) == j
    ensures Handles(line)[j] == Handle(line, Order[j])
  {
  }

  /** The first result that is a record; `None` when there is none. */
  function FirstSome(results: seq<Option<Reply>>): (r: Option<Reply>)
    ensures r.None? <==> forall i :: 0 <= i < |results| ==> results[i].None?
    ensures r.Some? ==> r in results
    decreases |results|
  {
    if results == [] then None
    else if results[0].Some? then results[0]
    else
      var rest := FirstSome(results[1..]);
      assert forall i :: 0 < i < |results| ==> results[i] == results[1..][i - 1];
      rest
  }

  /** One more failure extends a run of failures. */
  lemma NoneSoFar(results: seq<Option<Reply>>, j: nat)
    requires j < |results| && results[j].None?
    requires forall i :: 0 <= i < j ==> results[i].None?
    ensures forall i :: 0 <= i < j + 1 ==> results[i].None?
  {
  }

  /** A record preceded only by failures is the first record. */
  lemma {:induction false} FirstSomeHit(results: seq<Option<Reply>>, i: nat)
    requires i < |results| && results[i].Some?
    requires forall j :: 0 <= j < i ==> results[j].None?
    ensures FirstSome(results) == results[i]
    decreases i
  {
    if i > 0 {
      FirstSomeHit(results[1..], i - 1);
    }
  }

  /** Where the first record sits. */
  lemma FirstSomeAt(results: seq<Option<Reply>>) returns (i: nat)
    requires FirstSome(results).Some?
    ensures i < |results| && results[i] == FirstSome(results)
  {
    i :| 0 <= i < |results| && results[i] == FirstSome(results);
  }

  /** The record `parse` hands to its callback, if any. */
  function FirstReply(line: string): Option<Reply>
  {
    FirstSome(Handles(line))
  }

  /**
   * WhichStringParser.parse: tries the handlers in order and returns at
   * the first that matches. `calls` lists the callback's invocations: one,
   * with the first matching grammar's record, or none when nothing matched.
   */
  method Parse(line: string) returns (matched: bool, calls: seq<Reply>)
    ensures matched <==> FirstReply(line).Some?
    ensures matched ==> calls == [FirstReply(line).value]
    ensures !matched ==> calls == []
  {
    ghost var rs := Handles(line);
    var j := 0;
    while j < |Order|
      invariant 0 <= j <= |Order|
      invariant forall i :: 0 <= i < j ==> rs[i].None?
    {
      HandlesIndex(line, j);
      var r := Handle(line, Order[j]);
      if r.Some? {
        FirstSomeHit(rs, j);
        return true, [r.value];
      }
      NoneSoFar(rs, j);
      j := j + 1;
    }
    return false, [];
  }

  /** A line in which none of the three grammars occurs is not parsed, and only then. */
  lemma ParseNoMatch(line: string)
    ensures FirstReply(line).None? <==> forall k: Kind :: !Occurs(Grammar(k), line)
  {
    if FirstReply(line).None? {
      forall k: Kind ensures !Occurs(Grammar(k), line) {
        HandlesAt(line, k);
        HandleMisses(line, k);
      }
    } else {
      var i := FirstSomeAt(Handles(line));
      HandlesIndex(line, i);
      HandleMisses(line, Order[i]);
    }
  }

  /**
   * The first grammar, in the order heimdall, horton, tribble, that occurs
   * in the line decides the record; grammars later in the order are not
   * consulted.
   */
  lemma ParseFirstWins(line: string, k: Kind)
    requires Occurs(Grammar(k), line)
    requires forall k' :: Rank(k') < Rank(k) ==> !Occurs(Grammar(k'), line)
    ensures FirstReply(line).Some? && KindOf(FirstReply(line).value) == k
    ensures FirstReply(line) == Handle(line, k)
  {
    EarlierKindsMiss(line, k);
    HandlesAt(line, k);
    HandleMisses(line, k);
    FirstSomeHit(Handles(line), Rank(k));
  }

  /** No handler before `k` in the order succeeds when none of their grammars occurs. */
  lemma EarlierKindsMiss(line: string, k: Kind)
    requires forall k' :: Rank(k') < Rank(k) ==> !Occurs(Grammar(k'), line)
    ensures forall j :: 0 <= j < Rank(k) ==> Handles(line)[j].None?
  {
    forall j | 0 <= j < Rank(k) ensures Handles(line)[j].None? {
      HandlesIndex(line, j);
      HandleMisses(line, Order[j]);
    }
  }

  /** The record `parse` hands over is the one its own grammar's handler builds. */
  lemma FirstReplyHandled(line: string)
    requires FirstReply(line).Some?
    ensures FirstReply(line) == Handle(line, KindOf(FirstReply(line).value))
  {
    var i := FirstSomeAt(Handles(line));
    HandlesIndex(line, i);
  }

  /** Every `(\d+)` capture of a heimdall reply reaches its record as an int. */
  lemma HeimdallFieldsAreInts(line: string, h: HeimdallInfo)
    requires FirstReply(line) == Some(HeimdallReply(h))
    ensures h.id.Int? && h.port.Int? && h.qtemp.Int? && h.numPlayers.Int?
    ensures h.my.playerIndex.Int? && h.my.globalId.Int? && h.my.tribbleId.Int?
  {
    FirstReplyHandled(line);
    var data := TryHandle(line, HeimdallGrammar).value;
    assert h == ParseHeimdall(data);
    assert data[0].Int? && data[1].Int? && data[2].Int? && data[3].Int?;
    assert data[4].Int? && data[5].Int? && data[6].Int?;
  }

  /**
   * Every `(\d+)` capture of a horton reply reaches its record as an int;
   * the host, an `(.*)` capture, and the `(\w*)` version are ints only when
   * they happen to be all digits.
   */
  lemma HortonFieldsAreInts(line: string, h: HortonInfo)
    requires FirstReply(line) == Some(HortonReply(h))
    ensures h.address.1.Int? && h.qtemp.Int? && h.numPlayers.Int?
    ensures h.my.playerIndex.Int? && h.my.globalId.Int?
  {
    FirstReplyHandled(line);
    var data := TryHandle(line, HortonGrammar).value;
    assert h == ParseHorton(data);
    assert data[1].Int? && data[2].Int? && data[3].Int? && data[4].Int? && data[5].Int?;
  }

  /** Every `(\d+)` capture of a tribble reply reaches its record as an int. */
  lemma TribbleFieldsAreInts(line: string, t: TribbleInfo)
    requires FirstReply(line) == Some(TribbleReply(t))
    ensures t.id.Int? && t.qtemp.Int? && t.numPlayers.Int?
    ensures t.my.playerIndex.Int? && t.my.globalId.Int? && t.my.coords.0.Int? && t.my.coords.1.Int?
  {
    FirstReplyHandled(line);
    var data := TryHandle(line, TribbleGrammar).value;
    assert t == ParseTribble(data);
    assert data[0].Int? && data[1].Int? && data[2].Int? && data[3].Int?;
    assert data[4].Int? && data[5].Int? && data[6].Int?;
  }
}
