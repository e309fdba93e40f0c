/**
 * The connection states of one probe session (heimon/states.py).
 *
 * The session object the states drive is not part of this model; it is
 * represented by `Session`, which keeps the calls a state makes on it
 * (`send`, `handle_usercount`, `handle_error`, `handle_which_result`,
 * `handle_which_delay`, `change_state`) as a trace of effects. `time()` is
 * the explicit `now` argument. A Python exception leaving a handler is the
 * handler's `raised` result; the state and the trace are then as the
 * handler left them when it raised.
 *
 * Each state is a class with the fields its handlers update. What one
 * line does to a state is also given as a function (`DragonroarOnLine`,
 * `AuthOnLine`, `WhichOnLine`), against which the handlers are proved and
 * about which the properties over many lines are stated.
 */
module States {
  import opened Wrappers
  import opened PyText
  import opened Parsers

  /** The 'name' and 'password' entries of the credentials dictionary. */
  datatype Creds = Creds(name: string, password: string)

  /** The state object handed to `change_state`. */
  datatype NextState =
    | ToAuth(creds: Option<Creds>)
    /** A WhichTestState, which reads the clock when it is built. */
    | ToWhichTest(startedAt: real)
    | ToClosing

  /** One call a state makes on its session. */
  datatype Effect =
    | Send(data: string)
    | Usercount(current: int, maximum: int)
    | Error(msg: string)
    | WhichResult(reply: Reply)
    | WhichDelay(delay: real)
    | ChangeState(next: NextState)

  /** The session as the states see it: the calls made on it so far. */
  class Session {
    var trace: seq<Effect>

    constructor()
      ensures trace == []
    {
      trace := [];
    }

    method Record(e: Effect)
      modifies this
      ensures trace == old(trace) + [e]
    {
      trace := trace + [e];
    }
  }

  const Banner: string := "Dragonroar"
  const ReadyMarker: string := "&&&&&&&&&&&&&"
  const DragonroarTimeout: string := "Timed out before Dragonroar"
  const AuthTimeout: string := "Timed out during AUTH stage"
  const WhichQuery: string := "which\n"
  const QuitCommand: string := "quit\n"
  /** WhichTestState.MAX_WHICH_LINES */
  const MaxWhichLines: int := 3
  /** WhichTestState.WHICH_TIMEOUT_SECS */
  const WhichTimeoutSecs: real := 5.0

  predicate StartsWith(line: string, prefix: string)
  {
    prefix <= line
  }

  // ---------------------------------------------------------------------------
  // Dragonroar

  /**
   * The usercount line after its '#': `tuple(map(int, text.split(b' ')))`
   * unpacked into two names. Any token `int()` refuses, and any number of
   * tokens but two, raise ValueError.
   */
  function ParseUsercount(text: string): (r: Result<(int, int), PyError>)
    ensures r.Err? ==> r.error == ValueError
    ensures r.Ok? ==> Occurrences(text, ' ') == 1
  {
    var tokens := Split(text, ' ');
    SplitCount(text, ' ');
    if |tokens| == 2 && PyInt(tokens[0]).Some? && PyInt(tokens[1]).Some? then
      Ok((PyInt(tokens[0]).value, PyInt(tokens[1]).value))
    else
      Err(ValueError)
  }

  /** The usercount line the server writes for any two numbers reads back as those numbers. */
  lemma ParseUsercountShow(current: int, maximum: int)
    ensures ParseUsercount(ShowInt(current) + " " + ShowInt(maximum)) == Ok((current, maximum))
  {
    var a, b := ShowInt(current), ShowInt(maximum);
    ShowIntNoSpace(current);
    ShowIntNoSpace(maximum);
    assert a + " " + b == a + [' '] + b;
    SplitAround(a, ' ', b);
    SplitWhole(b, ' ');
    assert Split(a + " " + b, ' ') == [a, b];
    PyIntShowInt(current);
    PyIntShowInt(maximum);
  }

  /** What one line does to a Dragonroar state. */
  datatype DragonroarStep = DragonroarStep(gotUsercount: bool, effects: seq<Effect>, raised: Option<PyError>)

  /** How many `handle_usercount` calls a trace holds. */
  function UsercountReports(effects: seq<Effect>): nat
    decreases |effects|
  {
    if effects == [] then 0
    else (if effects[0].Usercount? then 1 else 0) + UsercountReports(effects[1..])
  }

  lemma {:induction false} UsercountReportsAppend(a: seq<Effect>, b: seq<Effect>)
    ensures UsercountReports(a + b) == UsercountReports(a) + UsercountReports(b)
    decreases |a|
  {
    if a == [] {
      assert a + b == b;
    } else {
      assert (a + b)[1..] == a[1..] + b;
      UsercountReportsAppend(a[1..], b);
    }
  }

  /**
   * DragonroarState.process: the first '#' line reports the user count and
   * sets the flag; the banner hands the credentials on to an Auth state.
   * The flag never goes down, a failed parse raises ValueError and records
   * nothing, the banner line and only it yields the change to Auth with the
   * credentials, and any other line yields at most usercount reports.
   */
  function DragonroarOnLine(gotUsercount: bool, creds: Option<Creds>, line: string): (o: DragonroarStep)
    ensures gotUsercount ==> o.gotUsercount
    ensures o.raised.Some? <==> StartsWith(line, "#") && !gotUsercount && ParseUsercount(line[1..]).Err?
    ensures o.raised.Some? ==> o.effects == [] && o.raised == Some(ValueError) && o.gotUsercount == gotUsercount
    ensures StartsWith(line, "#") && !gotUsercount && ParseUsercount(line[1..]).Ok? ==>
      o.gotUsercount && o.raised.None?
      && o.effects == [Usercount(ParseUsercount(line[1..]).value.0, ParseUsercount(line[1..]).value.1)]
    ensures line == Banner <==> o.effects == [ChangeState(ToAuth(creds))]
    ensures !(StartsWith(line, "#") && !gotUsercount) ==> o.gotUsercount == gotUsercount && o.raised.None?
    ensures !(StartsWith(line, "#") && !gotUsercount) && line != Banner ==> o.effects == []
  {
    if StartsWith(line, "#") && !gotUsercount then
      assert line != Banner by { assert line[0] != Banner[0]; }
      match ParseUsercount(line[1..])
      case Err(e) => DragonroarStep(gotUsercount, [], Some(e))
      case Ok((current, maximum)) => DragonroarStep(true, [Usercount(current, maximum)], None)
    else if line == Banner then
      DragonroarStep(gotUsercount, [ChangeState(ToAuth(creds))], None)
    else
      DragonroarStep(gotUsercount, [], None)
  }

  /** One line reports the user count exactly when it raises the flag. */
  lemma DragonroarReports(gotUsercount: bool, creds: Option<Creds>, line: string)
    ensures var o := DragonroarOnLine(gotUsercount, creds, line);
      UsercountReports(o.effects) == if !gotUsercount && o.gotUsercount then 1 else 0
  {
    var o := DragonroarOnLine(gotUsercount, creds, line);
    if o.effects != [] {
      assert o.effects[1..] == [];
    }
  }

  /**
   * The usercount line the server writes, `#<current> <maximum>`, seen
   * before any other count, reports exactly those two numbers.
   */
  lemma DragonroarReadsUsercount(creds: Option<Creds>, current: int, maximum: int)
    ensures DragonroarOnLine(false, creds, "#" + ShowInt(current) + " " + ShowInt(maximum))
      == DragonroarStep(true, [Usercount(current, maximum)], None)
  {
    var text := ShowInt(current) + " " + ShowInt(maximum);
    var line := "#" + ShowInt(current) + " " + ShowInt(maximum);
    ParseUsercountShow(current, maximum);
    AppendAssoc("#", ShowInt(current), " ");
    AppendAssoc("#", ShowInt(current) + " ", ShowInt(maximum));
    assert line[1..] == text;
    assert StartsWith(line, "#");
  }

  /**
   * The lines one Dragonroar state handles: it stops at the first exception
   * and at the banner, after which the session talks to the Auth state.
   */
  function DragonroarRun(gotUsercount: bool, creds: Option<Creds>, lines: seq<string>): (o: DragonroarStep)
    decreases |lines|
  {
    if lines == [] then DragonroarStep(gotUsercount, [], None)
    else
      var first := DragonroarOnLine(gotUsercount, creds, lines[0]);
      if first.raised.Some? || lines[0] == Banner then first
      else
        var rest := DragonroarRun(first.gotUsercount, creds, lines[1..]);
        DragonroarStep(rest.gotUsercount, first.effects + rest.effects, rest.raised)
  }

  /** However many '#' lines arrive, the user count is reported at most once, and never again once reported. */
  lemma {:induction false} UsercountReportedOnce(gotUsercount: bool, creds: Option<Creds>, lines: seq<string>)
    ensures var o := DragonroarRun(gotUsercount, creds, lines);
      && (gotUsercount ==> o.gotUsercount)
      && UsercountReports(o.effects) == if !gotUsercount && o.gotUsercount then 1 else 0
    decreases |lines|
  {
    if lines != [] {
      var first := DragonroarOnLine(gotUsercount, creds, lines[0]);
      if first.raised.None? && lines[0] != Banner {
        var rest := DragonroarRun(first.gotUsercount, creds, lines[1..]);
        UsercountReportedOnce(first.gotUsercount, creds, lines[1..]);
        DragonroarReports(gotUsercount, creds, lines[0]);
        UsercountReportsAppend(first.effects, rest.effects);
      }
    }
  }

  /** DragonroarState: the credentials it will hand on and whether the user count was seen. */
  class DragonroarState {
    const session: Session
    var creds: Option<Creds>
    var gotUsercount: bool

    constructor(session: Session, creds: Creds)
      ensures this.session == session && this.creds == Some(creds) && !gotUsercount
    {
      this.session := session;
      this.creds := Some(creds);
      gotUsercount := false;
    }

    /** process: what `DragonroarOnLine` says, on the session and on the flag. */
    method Process(line: string) returns (raised: Option<PyError>)
      modifies this, session
      ensures var o := DragonroarOnLine(old(gotUsercount), old(creds), line);
        && gotUsercount == o.gotUsercount
        && session.trace == old(session.trace) + o.effects
        && raised == o.raised
      ensures creds == old(creds)
    {
      ghost var o := DragonroarOnLine(gotUsercount, creds, line);
      raised := None;
      if StartsWith(line, "#") && !gotUsercount {
        var parsed := ParseUsercount(line[1..]);
        if parsed.Err? {
          return Some(parsed.error);
        }
        assert o.effects == [Usercount(parsed.value.0, parsed.value.1)];
        session.Record(Usercount(parsed.value.0, parsed.value.1));
        gotUsercount := true;
      } else if line == Banner {
        assert o.effects == [ChangeState(ToAuth(creds))];
        session.Record(ChangeState(ToAuth(creds)));
      } else {
        assert o.effects == [];
      }
    }

    /** exit: the credentials are dropped. */
    method Exit()
      modifies this
      ensures creds == None && gotUsercount == old(gotUsercount)
    {
      creds := None;
    }

    /** idle: a read timed out before the banner, which is an error. */
    method Idle()
      modifies session
      ensures session.trace == old(session.trace) + [Error(DragonroarTimeout)]
    {
      session.Record(Error(DragonroarTimeout));
    }
  }

  // ---------------------------------------------------------------------------
  // Auth

  /** AuthState.sanitize_creds: spaces become '|' in the name and '_' in the password. */
  function SanitizeCreds(c: Creds): (r: Creds)
    ensures ' ' !in r.name && ' ' !in r.password
    ensures |r.name| == |c.name| && |r.password| == |c.password|
    ensures forall k :: 0 <= k < |c.name| ==> r.name[k] == if c.name[k] == ' ' then '|' else c.name[k]
    ensures forall k :: 0 <= k < |c.password| ==> r.password[k] == if c.password[k] == ' ' then '_' else c.password[k]
  {
    Creds(Replace(c.name, ' ', '|'), Replace(c.password, ' ', '_'))
  }

  /** Sanitizing twice is sanitizing once. */
  lemma SanitizeIdempotent(c: Creds)
    ensures SanitizeCreds(SanitizeCreds(c)) == SanitizeCreds(c)
  {
    var once := SanitizeCreds(c);
    var twice := SanitizeCreds(once);
    assert twice.name == once.name;
    assert twice.password == once.password;
  }

  /** `"connect %s %s\n" % creds` */
  function ConnectLine(c: Creds): string
  {
    "connect " + c.name + " " + c.password + "\n"
  }

  /**
   * The login line Auth sends ends in a newline and, without it, splits on
   * spaces into exactly the command, the sanitized name and the sanitized
   * password.
   */
  lemma ConnectLineFields(c: Creds)
    ensures var line := ConnectLine(SanitizeCreds(c));
      && line[|line| - 1] == '\n'
      && Split(line[..|line| - 1], ' ') == ["connect", SanitizeCreds(c).name, SanitizeCreds(c).password]
  {
    var s := SanitizeCreds(c);
    var line := ConnectLine(s);
    var tail := s.name + [' '] + s.password;
    assert line[..|line| - 1] == "connect" + [' '] + tail;
    SplitAround("connect", ' ', tail);
    SplitAround(s.name, ' ', s.password);
    SplitWhole(s.password, ' ');
  }

  /**
   * The rejection notice's message: the third piece of `line.split(b' ', 2)`,
   * everything after the second space. With fewer than two spaces there is
   * no third piece and the indexing raises IndexError.
   */
  function RejectionMessage(line: string): (r: Result<string, PyError>)
    ensures r.Err? <==> Occurrences(line, ' ') < 2
    ensures r.Err? ==> r.error == IndexError
  {
    var parts := SplitMax(line, ' ', 2);
    SplitMaxCount(line, ' ', 2);
    if |parts| < 3 then Err(IndexError) else Ok(parts[2])
  }

  /** Whatever follows the second space is the message, spaces and all. */
  lemma RejectionMessageOf(first: string, second: string, msg: string)
    requires ' ' !in first && ' ' !in second
    ensures RejectionMessage(first + " " + second + " " + msg) == Ok(msg)
  {
    var line := first + " " + second + " " + msg;
    var rest := second + " " + msg;
    assert line == first + [' '] + rest;
    FindAfter(first, ' ', rest);
    assert line[|first| + 1..] == rest;
    FindAfter(second, ' ', msg);
    assert rest[|second| + 1..] == msg;
  }

  /** What one line does in the Auth state. */
  datatype Reaction = Reaction(effects: seq<Effect>, raised: Option<PyError>)

  /**
   * AuthState.process: a line starting with "]#" is a rejection whose
   * message is reported as an error (IndexError when it has fewer than two
   * spaces); the ready marker moves on to a WhichTest state built at `now`.
   */
  function AuthOnLine(line: string, now: real): (o: Reaction)
    ensures o.raised.Some? <==> StartsWith(line, "]#") && Occurrences(line, ' ') < 2
    ensures o.raised.Some? ==> o.effects == [] && o.raised == Some(IndexError)
    ensures (exists e :: e in o.effects && e.ChangeState?) <==> line == ReadyMarker
    ensures forall e :: e in o.effects && e.ChangeState? ==> e == ChangeState(ToWhichTest(now))
    ensures (exists e :: e in o.effects && e.Error?) <==> StartsWith(line, "]#") && Occurrences(line, ' ') >= 2
    ensures StartsWith(line, "]#") && RejectionMessage(line).Ok? ==> o == Reaction([Error(RejectionMessage(line).value)], None)
    ensures line == ReadyMarker ==> o == Reaction([ChangeState(ToWhichTest(now))], None)
    ensures !StartsWith(line, "]#") && line != ReadyMarker ==> o == Reaction([], None)
  {
    if StartsWith(line, "]#") then
      assert line != ReadyMarker by { assert line[0] != ReadyMarker[0]; }
      match RejectionMessage(line)
      case Err(e) => Reaction([], Some(e))
      case Ok(msg) =>
        var r := Reaction([Error(msg)], None);
        assert r.effects[0] in r.effects;
        r
    else if line == ReadyMarker then
      var r := Reaction([ChangeState(ToWhichTest(now))], None);
      assert r.effects[0] in r.effects;
      r
    else
      Reaction([], None)
  }

  /**
   * A rejection line as the server writes it, `]#<code> <word> <message>`,
   * reports its whole message as one error.
   */
  lemma AuthReportsRejection(first: string, second: string, msg: string, now: real)
    requires StartsWith(first, "]#")
    requires ' ' !in first && ' ' !in second
    ensures AuthOnLine(first + " " + second + " " + msg, now) == Reaction([Error(msg)], None)
  {
    var line := first + " " + second + " " + msg;
    RejectionMessageOf(first, second, msg);
    assert line[..|first|] == first;
    assert StartsWith(line, "]#");
  }

  /** AuthState: the credentials, until `enter` has sent them. */
  class AuthState {
    const session: Session
    var creds: Option<Creds>

    constructor(session: Session, creds: Option<Creds>)
      ensures this.session == session && this.creds == creds
    {
      this.session := session;
      this.creds := creds;
    }

    /**
     * enter: sends the login line with the sanitized credentials, then
     * drops them. Without credentials the subscript raises TypeError and
     * nothing is sent.
     */
    method Enter() returns (raised: Option<PyError>)
      modifies this, session
      ensures old(creds).None? ==> raised == Some(TypeError) && creds == old(creds) && session.trace == old(session.trace)
      ensures old(creds).Some? ==>
        && raised == None
        && creds == None
        && session.trace == old(session.trace) + [Send(ConnectLine(SanitizeCreds(old(creds).value)))]
    {
      if creds.None? {
        return Some(TypeError);
      }
      session.Record(Send(ConnectLine(SanitizeCreds(creds.value))));
      creds := None;
      raised := None;
    }

    /** idle: a read timed out before the ready marker, which is an error. */
    method Idle()
      modifies session
      ensures session.trace == old(session.trace) + [Error(AuthTimeout)]
    {
      session.Record(Error(AuthTimeout));
    }

    /** process: what `AuthOnLine` says. */
    method Process(line: string, now: real) returns (raised: Option<PyError>)
      modifies session
      ensures var o := AuthOnLine(line, now);
        session.trace == old(session.trace) + o.effects && raised == o.raised
    {
      raised := None;
      if StartsWith(line, "]#") {
        var msg := RejectionMessage(line);
        if msg.Err? {
          return Some(msg.error);
        }
        session.Record(Error(msg.value));
      } else if line == ReadyMarker {
        session.Record(ChangeState(ToWhichTest(now)));
      }
    }
  }

  // ---------------------------------------------------------------------------
  // WhichTest

  /**
   * WhichTestState.__maybe_timeout: once more than five seconds have passed
   * since the state was built, the delay is reported and the state moves on
   * to Closing; until then nothing happens.
   */
  function TimeoutEffects(startedAt: real, now: real): (effects: seq<Effect>)
    ensures effects != [] <==> now - startedAt > WhichTimeoutSecs
    ensures effects != [] ==> effects == [WhichDelay(now - startedAt), ChangeState(ToClosing)]
    ensures forall k :: 0 <= k < |effects| ==> !effects[k].WhichResult?
  {
    if now - startedAt > WhichTimeoutSecs then [WhichDelay(now - startedAt), ChangeState(ToClosing)] else []
  }

  /** What one line does to a WhichTest state. */
  datatype WhichStep = WhichStep(counter: int, effects: seq<Effect>)

  /** How many `handle_which_result` calls a trace holds. */
  function WhichResults(effects: seq<Effect>): nat
    decreases |effects|
  {
    if effects == [] then 0
    else (if effects[0].WhichResult? then 1 else 0) + WhichResults(effects[1..])
  }

  lemma {:induction false} WhichResultsAppend(a: seq<Effect>, b: seq<Effect>)
    ensures WhichResults(a + b) == WhichResults(a) + WhichResults(b)
    decreases |a|
  {
    if a == [] {
      assert a + b == b;
    } else {
      assert (a + b)[1..] == a[1..] + b;
      WhichResultsAppend(a[1..], b);
    }
  }

  lemma {:induction false} NoWhichResults(effects: seq<Effect>)
    requires forall k :: 0 <= k < |effects| ==> !effects[k].WhichResult?
    ensures WhichResults(effects) == 0
    decreases |effects|
  {
    if effects != [] {
      NoWhichResults(effects[1..]);
    }
  }

  /** The state is left, for Closing, exactly when the effects hold the change. */
  predicate Closes(effects: seq<Effect>)
  {
    ChangeState(ToClosing) in effects
  }

  /**
   * WhichTestState.process: a parsed reply goes to the session and counts
   * one success. From the third success on the delay is reported and the
   * state closes; below three only the timeout can close it.
   */
  function WhichOnLine(counter: int, startedAt: real, parsed: Option<Reply>, now: real): (o: WhichStep)
    ensures o.counter == counter + (if parsed.Some? then 1 else 0)
    ensures WhichResults(o.effects) == o.counter - counter
    ensures parsed.Some? ==> o.effects[0] == WhichResult(parsed.value)
    ensures Closes(o.effects) <==> o.counter >= MaxWhichLines || now - startedAt > WhichTimeoutSecs
    ensures Closes(o.effects) ==>
      (|o.effects| >= 2 && o.effects[|o.effects| - 2..] == [WhichDelay(now - startedAt), ChangeState(ToClosing)])
    ensures o.effects == (if parsed.Some? then [WhichResult(parsed.value)] else [])
      + (if o.counter >= MaxWhichLines then [WhichDelay(now - startedAt), ChangeState(ToClosing)]
         else TimeoutEffects(startedAt, now))
  {
    var reported := if parsed.Some? then [WhichResult(parsed.value)] else [];
    var n := if parsed.Some? then counter + 1 else counter;
    var tail := if n >= MaxWhichLines then [WhichDelay(now - startedAt), ChangeState(ToClosing)]
                else TimeoutEffects(startedAt, now);
    WhichResultsAppend(reported, tail);
    NoWhichResults(tail);
    WhichStep(n, reported + tail)
  }

  /**
   * What the session delivers to a WhichTest state: a line, as the parser
   * reads it (`FirstReply`), or a read that timed out.
   */
  datatype Event = Line(parsed: Option<Reply>, at: real) | Idle(at: real)

  /** The events one WhichTest state handles, up to the one that closes it. */
  function WhichRun(counter: int, startedAt: real, events: seq<Event>): (o: WhichStep)
    decreases |events|
  {
    if events == [] then WhichStep(counter, [])
    else
      var first := match events[0]
        case Line(parsed, at) => WhichOnLine(counter, startedAt, parsed, at)
        case Idle(at) => WhichStep(counter, TimeoutEffects(startedAt, at));
      if Closes(first.effects) then first
      else
        var rest := WhichRun(first.counter, startedAt, events[1..]);
        WhichStep(rest.counter, first.effects + rest.effects)
  }

  /**
   * Over any run, the counter grows by exactly the number of replies handed
   * to the session; it only grows; and a run that closed it had three
   * successes or saw the clock pass five seconds.
   */
  lemma {:induction false} WhichCountsReplies(counter: int, startedAt: real, events: seq<Event>)
    ensures var o := WhichRun(counter, startedAt, events);
      && WhichResults(o.effects) == o.counter - counter
      && counter <= o.counter
      && (Closes(o.effects) ==> o.counter >= MaxWhichLines || exists e :: e in events && e.at - startedAt > WhichTimeoutSecs)
    decreases |events|
  {
    if events != [] {
      var first := match events[0]
        case Line(parsed, at) => WhichOnLine(counter, startedAt, parsed, at)
        case Idle(at) => WhichStep(counter, TimeoutEffects(startedAt, at));
      if events[0].Idle? {
        NoWhichResults(TimeoutEffects(startedAt, events[0].at));
      }
      if !Closes(first.effects) {
        var rest := WhichRun(first.counter, startedAt, events[1..]);
        WhichCountsReplies(first.counter, startedAt, events[1..]);
        WhichResultsAppend(first.effects, rest.effects);
        if Closes(rest.effects) && rest.counter < MaxWhichLines {
          var e :| e in events[1..] && e.at - startedAt > WhichTimeoutSecs;
          assert e in events;
        }
        assert Closes(first.effects + rest.effects) ==> Closes(rest.effects);
      } else {
        assert events[0] in events;
      }
    }
  }

  /** WhichTestState: the success counter and the time the state was built. */
  class WhichTestState {
    const session: Session
    const startedAt: real
    var counter: int

    constructor(session: Session, now: real)
      ensures this.session == session && startedAt == now && counter == 0
    {
      this.session := session;
      startedAt := now;
      counter := 0;
    }

    /** enter: the counter starts at 0 and the `which` query goes out. */
    method Enter()
      modifies this, session
      ensures counter == 0
      ensures session.trace == old(session.trace) + [Send(WhichQuery)]
    {
      counter := 0;
      session.Record(Send(WhichQuery));
    }

    /** __maybe_timeout: reports whether more than five seconds have passed. */
    method MaybeTimeout(now: real) returns (isTimeout: bool)
      modifies session
      ensures isTimeout <==> now - startedAt > WhichTimeoutSecs
      ensures session.trace == old(session.trace) + TimeoutEffects(startedAt, now)
    {
      var delay := now - startedAt;
      isTimeout := delay > WhichTimeoutSecs;
      if isTimeout {
        session.Record(WhichDelay(delay));
        session.Record(ChangeState(ToClosing));
      }
    }

    /** process: what `WhichOnLine` says, on the session and on the counter. */
    method Process(line: string, now: real)
      modifies this, session
      ensures var o := WhichOnLine(old(counter), startedAt, FirstReply(line), now);
        counter == o.counter && session.trace == old(session.trace) + o.effects
    {
      var matched, calls := Parse(line);
      OnParsed(if matched then Some(calls[0]) else None, now);
    }

    /** The rest of process, once the parser has read the line (and called back). */
    method OnParsed(parsed: Option<Reply>, now: real)
      modifies this, session
      ensures var o := WhichOnLine(old(counter), startedAt, parsed, now);
        counter == o.counter && session.trace == old(session.trace) + o.effects
    {
      ghost var before := session.trace;
      ghost var reported: seq<Effect> := if parsed.Some? then [WhichResult(parsed.value)] else [];
      if parsed.Some? {
        session.Record(WhichResult(parsed.value));
        counter := counter + 1;
      }
      assert session.trace == before + reported;
      ghost var mid := session.trace;
      if counter >= MaxWhichLines {
        session.Record(WhichDelay(now - startedAt));
        session.Record(ChangeState(ToClosing));
        assert session.trace == mid + [WhichDelay(now - startedAt), ChangeState(ToClosing)];
      } else {
        var _ := MaybeTimeout(now);
      }
      ghost var tail := session.trace[|mid|..];
      assert session.trace == mid + tail;
      AppendAssoc(before, reported, tail);
    }

    /** idle: only the timeout is checked. */
    method Idle(now: real)
      modifies session
      ensures session.trace == old(session.trace) + TimeoutEffects(startedAt, now)
    {
      var _ := MaybeTimeout(now);
    }
  }

  // ---------------------------------------------------------------------------
  // Closing, Closed and the null state

  /** ClosingState: `enter` sends the quit command; its other handlers do nothing. */
  class ClosingState {
    const session: Session

    constructor(session: Session)
      ensures this.session == session
    {
      this.session := session;
    }

    method Enter()
      modifies session
      ensures session.trace == old(session.trace) + [Send(QuitCommand)]
    {
      session.Record(Send(QuitCommand));
    }
  }

  /**
   * NullState, and ClosedState, which differs from it only in its name: the
   * handlers of the base State, none of which touches the session.
   */
  class NullState {
    const session: Session

    constructor(session: Session)
      ensures this.session == session
    {
      this.session := session;
    }

    method Enter()
      ensures session.trace == old(session.trace)
    {
    }

    method Process(line: string)
      ensures session.trace == old(session.trace)
    {
    }

    method Idle()
      ensures session.trace == old(session.trace)
    {
    }

    method Exit()
      ensures session.trace == old(session.trace)
    {
    }
  }
}
