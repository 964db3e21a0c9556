/** The SMTP and LMTP probe (internal/probe/smtp.go): a conversation written step
    by step, proved to be the play of a table of steps. */
module Smtp {
  import opened Wrappers
  import Banner

  datatype Command = Command(send: string, wanted: string)

  datatype Options = Options(lmtp: bool, helo: string, from: string, commands: seq<Command>,
                             startTLS: bool, minCertDays: int)
  {
    /** The conversation stops after the handshake, for the certificate's sake. */
    predicate CertificateOnly() { startTLS && minCertDays > 0 }

    function Verb(): string { if lmtp then "LHLO" else "EHLO" }
  }

  /** How the peer meets one line: the line cannot be written, no reply can be read,
      or a reply. The n-th exchange meets the n-th of these. */
  datatype Reply = Unwritable | Unread | Answer(code: nat, line: string)

  /** `Certified` stands for whatever the certificate's dates say. */
  datatype Verdict = OK | Certified | Warning | Critical

  /** A line on the wire, and whether it went over the encrypted connection. */
  datatype Sent = Sent(line: string, tls: bool)

  function Decimal(n: nat): string {
    (if n < 10 then "" else Decimal(n / 10)) + ["0123456789"[n % 10]]
  }

  function DigitValue(c: char): int { c as int - '0' as int }

  function ReadDecimal(digits: string): int {
    if digits == "" then 0 else 10 * ReadDecimal(digits[..|digits| - 1]) + DigitValue(digits[|digits| - 1])
  }

  /** A reply code is written in decimal, and without leading zeros. */
  lemma {:induction false} DecimalReadsBack(n: nat)
    ensures ReadDecimal(Decimal(n)) == n
    ensures Decimal(n) != "" && (n > 0 ==> Decimal(n)[0] != '0')
  {
    var last := "0123456789"[n % 10];
    assert DigitValue(last) == n % 10;
    if n < 10 {
      assert Decimal(n) == [last] && [last][..0] == "";
    } else {
      DecimalReadsBack(n / 10);
      assert Decimal(n)[..|Decimal(n)| - 1] == Decimal(n / 10);
    }
  }

  function Full(code: nat, line: string): string { Decimal(code) + " " + line }

  // ---------------------------------------------------------------- the table

  /** How a reply is graded, and what a bad one means. */
  datatype Grade = Code(want: nat, otherwise: Verdict) | Text(part: string) | Ungraded

  datatype Step = Ask(line: string, grade: Grade, fallback: Option<string>) | Handshake

  ghost predicate Accepts(grade: Grade, reply: Reply)
    requires reply.Answer?
  {
    match grade
    case Code(want, _) => reply.code == want
    case Text(part) => Banner.Contains(Full(reply.code, reply.line), part)
    case Ungraded => true
  }

  function Rejection(grade: Grade): Verdict {
    if grade.Code? then grade.otherwise else Warning
  }

  function Hello(o: Options): seq<Step> {
    [Ask(o.Verb() + " " + o.helo, Code(250, Critical), if o.lmtp then None else Some("HELO " + o.helo))]
  }

  function Upgrade(o: Options): seq<Step> {
    if o.startTLS then [Ask("STARTTLS", Code(220, Critical), None), Handshake] + Hello(o) else []
  }

  function Mail(o: Options): seq<Step> {
    if o.from == "" then [] else [Ask("MAIL FROM:<" + o.from + ">", Code(250, Warning), None)]
  }

  function Scripted(commands: seq<Command>): seq<Step> {
    if commands == [] then []
    else
      var c := commands[0];
      [Ask(c.send, if c.wanted == "" then Ungraded else Text(c.wanted), None)] + Scripted(commands[1..])
  }

  function Steps(o: Options): seq<Step> {
    Hello(o) + (Upgrade(o) + (if o.CertificateOnly() then [] else Mail(o) + Scripted(o.commands)))
  }

  function Success(o: Options): Verdict { if o.CertificateOnly() then Certified else OK }

  // ---------------------------------------------------------------- the play

  datatype State = State(written: seq<Sent>, tls: bool, next: nat)

  datatype Final = Final(written: seq<Sent>, verdict: Verdict)

  /** The peer: its replies, and whether the handshake succeeds. */
  datatype Peer = Peer(replies: nat -> Reply, handshake: bool)

  function Wrote(s: State, line: string): State {
    State(s.written + [Sent(line, s.tls)], s.tls, s.next + 1)
  }

  /** QUIT is written without regard for what becomes of it. */
  function Quit(s: State, p: Peer): seq<Sent> {
    s.written + if p.replies(s.next).Unwritable? then [] else [Sent("QUIT", s.tls)]
  }

  /** Take the steps in order until one fails; after the last one, QUIT. */
  ghost function Play(s: State, steps: seq<Step>, p: Peer, success: Verdict): Final
    decreases |steps|, if steps != [] && steps[0].Ask? && steps[0].fallback.Some? then 1 else 0
  {
    if steps == [] then Final(Quit(s, p), success)
    else
      match steps[0]
      case Handshake =>
        if p.handshake then Play(s.(tls := true), steps[1..], p, success) else Final(s.written, Critical)
      case Ask(line, grade, fallback) =>
        var reply := p.replies(s.next);
        if reply.Unwritable? then Final(s.written, Critical)
        else if reply.Unread? then Final(Wrote(s, line).written, Critical)
        else if Accepts(grade, reply) then Play(Wrote(s, line), steps[1..], p, success)
        else if fallback.Some? then
          Play(Wrote(s, line), [Ask(fallback.value, grade, None)] + steps[1..], p, success)
        else Final(Wrote(s, line).written, Rejection(grade))
  }

  /** The whole probe: the peer speaks first, and must say 220. */
  ghost function Converse(o: Options, p: Peer): Final {
    var greeting := p.replies(0);
    if greeting.Answer? && greeting.code == 220 then Play(State([], false, 1), Steps(o), p, Success(o))
    else Final([], Critical)
  }

  // ---------------------------------------------------------------- the code

  /** A connection; STARTTLS swaps the transport in place. */
  class Session {
    const peer: Peer
    var written: seq<Sent>
    var tls: bool
    var next: nat

    function Now(): State
      reads this
    {
      State(written, tls, next)
    }

    constructor (peer: Peer)
      ensures this.peer == peer && Now() == State([], false, 0)
    {
      this.peer := peer;
      written, tls, next := [], false, 0;
    }

    method Read() returns (r: Reply)
      modifies this`next
      ensures r == peer.replies(old(next)) && next == old(next) + 1
    {
      r := peer.replies(next);
      next := next + 1;
    }

    /** Write a line and read its reply. */
    method Cmd(line: string) returns (r: Reply)
      modifies this
      ensures r == peer.replies(old(next))
      ensures !r.Unwritable? ==> Now() == Wrote(old(Now()), line)
      ensures r.Unwritable? ==> written == old(written)
    {
      if peer.replies(next).Unwritable? {
        return Unwritable;
      }
      written := written + [Sent(line, tls)];
      r := Read();
    }

    method Close()
      modifies this
      ensures written == Quit(old(Now()), peer)
    {
      if !peer.replies(next).Unwritable? {
        written := written + [Sent("QUIT", tls)];
      }
    }

    /** Each part either gets through, leaving the rest of the table to be played,
        or ends the probe with its verdict. */
    ghost predicate Through(before: State, part: seq<Step>, rest: seq<Step>, success: Verdict, ok: bool, v: Verdict)
      reads this
    {
      Play(before, part + rest, peer, success) ==
      if ok then Play(Now(), rest, peer, success) else Final(written, v)
    }

    method Greet(o: Options, ghost rest: seq<Step>, ghost success: Verdict) returns (ok: bool, v: Verdict)
      modifies this
      ensures Through(old(Now()), Hello(o), rest, success, ok, v)
    {
      assert (Hello(o) + rest)[1..] == rest;
      var r := Cmd(o.Verb() + " " + o.helo);
      if !r.Answer? {
        return false, Critical;
      }
      if r.code == 250 {
        return true, OK;
      }
      if o.lmtp {
        return false, Critical;
      }
      ghost var second := [Ask("HELO " + o.helo, Code(250, Critical), None)];
      assert (second + rest)[1..] == rest && (second + rest)[0] == second[0];
      r := Cmd("HELO " + o.helo);
      if !r.Answer? || r.code != 250 {
        return false, Critical;
      }
      return true, OK;
    }

    method StartTLS(o: Options, ghost rest: seq<Step>, ghost success: Verdict) returns (ok: bool, v: Verdict)
      requires o.startTLS
      modifies this
      ensures Through(old(Now()), Upgrade(o), rest, success, ok, v)
    {
      ghost var shake := [Handshake] + (Hello(o) + rest);
      assert Upgrade(o) + rest == [Ask("STARTTLS", Code(220, Critical), None)] + shake;
      assert ([Ask("STARTTLS", Code(220, Critical), None)] + shake)[1..] == shake && shake[1..] == Hello(o) + rest;
      var r := Cmd("STARTTLS");
      if !r.Answer? || r.code != 220 {
        return false, Critical;
      }
      if !peer.handshake {
        return false, Critical;
      }
      tls := true;
      ok, v := Greet(o, rest, success);
    }

    method MailFrom(o: Options, ghost rest: seq<Step>, ghost success: Verdict) returns (ok: bool, v: Verdict)
      modifies this
      ensures Through(old(Now()), Mail(o), rest, success, ok, v)
    {
      if o.from == "" {
        assert [] + rest == rest;
        return true, OK;
      }
      assert (Mail(o) + rest)[1..] == rest;
      var r := Cmd("MAIL FROM:<" + o.from + ">");
      if !r.Answer? {
        return false, Critical;
      }
      if r.code != 250 {
        return false, Warning;
      }
      return true, OK;
    }

    method RunCommands(commands: seq<Command>, ghost success: Verdict) returns (ok: bool, v: Verdict)
      modifies this
      ensures Through(old(Now()), Scripted(commands), [], success, ok, v)
    {
      ghost var whole := Play(Now(), Scripted(commands), peer, success);
      assert Scripted(commands) + [] == Scripted(commands);
      for i := 0 to |commands|
        invariant Play(Now(), Scripted(commands[i..]), peer, success) == whole
      {
        var c := commands[i];
        assert commands[i..][1..] == commands[i + 1..];
        assert Scripted(commands[i..])[1..] == Scripted(commands[i + 1..]);
        var r := Cmd(c.send);
        if !r.Answer? {
          return false, Critical;
        }
        if c.wanted != "" {
          var found := Banner.Includes(Full(r.code, r.line), c.wanted);
          if !found {
            return false, Warning;
          }
        }
      }
      assert commands[|commands|..] == [];
      return true, OK;
    }
  }

  method Run(o: Options, peer: Peer) returns (s: Session, v: Verdict)
    ensures Final(s.written, v) == Converse(o, peer)
  {
    s := new Session(peer);
    var r := s.Read();
    if !r.Answer? || r.code != 220 {
      return s, Critical;
    }
    ghost var tail := if o.CertificateOnly() then [] else Mail(o) + Scripted(o.commands);
    ghost var success := Success(o);
    var ok;
    ok, v := s.Greet(o, Upgrade(o) + tail, success);
    if !ok {
      return;
    }
    if o.startTLS {
      ok, v := s.StartTLS(o, tail, success);
      if !ok {
        return;
      }
      if o.minCertDays > 0 {
        s.Close();
        return s, Certified;
      }
    } else {
      assert Upgrade(o) + tail == tail;
    }
    ok, v := s.MailFrom(o, Scripted(o.commands), success);
    if !ok {
      return;
    }
    assert Scripted(o.commands) + [] == Scripted(o.commands);
    ok, v := s.RunCommands(o.commands, success);
    if !ok {
      return;
    }
    s.Close();
    return s, OK;
  }

  // ---------------------------------------------------------------- grammar

  /** Lines that could be the beginning of this table's conversation: in order,
      none left out, HELO after the greeting at most where it is allowed, QUIT only
      at the end, and encrypted from the handshake on. */
  ghost predicate Follows(lines: seq<Sent>, steps: seq<Step>, tls: bool)
    decreases |steps|, if steps != [] && steps[0].Ask? && steps[0].fallback.Some? then 1 else 0
  {
    lines == [] ||
    if steps == [] then lines == [Sent("QUIT", tls)]
    else
      match steps[0]
      case Handshake => Follows(lines, steps[1..], true)
      case Ask(line, grade, fallback) =>
        && lines[0] == Sent(line, tls)
        && (|| Follows(lines[1..], steps[1..], tls)
            || (fallback.Some? && Follows(lines[1..], [Ask(fallback.value, grade, None)] + steps[1..], tls)))
  }

  lemma {:induction false} PlayFollows(s: State, steps: seq<Step>, p: Peer, success: Verdict)
    ensures s.written <= Play(s, steps, p, success).written
    ensures Follows(Play(s, steps, p, success).written[|s.written|..], steps, s.tls)
    decreases |steps|, if steps != [] && steps[0].Ask? && steps[0].fallback.Some? then 1 else 0
  {
    if steps == [] {
      return;
    }
    match steps[0]
    case Handshake =>
      if p.handshake {
        PlayFollows(s.(tls := true), steps[1..], p, success);
      }
    case Ask(line, grade, fallback) =>
      var reply, t := p.replies(s.next), Wrote(s, line);
      if reply.Answer? && Accepts(grade, reply) {
        PlayFollows(t, steps[1..], p, success);
      } else if reply.Answer? && fallback.Some? {
        PlayFollows(t, [Ask(fallback.value, grade, None)] + steps[1..], p, success);
      }
      var written := Play(s, steps, p, success).written;
      if !reply.Unwritable? {
        assert written[|s.written|..][1..] == written[|t.written|..];
        assert written[|s.written|] == Sent(line, s.tls);
      }
  }

  /** Whatever the server answers, what is written is the beginning of: greeting,
      STARTTLS and a new greeting if asked for, MAIL FROM if there is a sender, the
      scripted commands, QUIT. */
  lemma ConversationFollowsTable(o: Options, p: Peer)
    ensures Follows(Converse(o, p).written, Steps(o), false)
  {
    if p.replies(0).Answer? && p.replies(0).code == 220 {
      PlayFollows(State([], false, 1), Steps(o), p, Success(o));
      assert Converse(o, p).written[0..] == Converse(o, p).written;
    }
  }

  // ---------------------------------------------------------------- STARTTLS

  lemma {:induction false} EncryptedStays(lines: seq<Sent>, steps: seq<Step>)
    requires Follows(lines, steps, true)
    ensures forall e | e in lines :: e.tls
    decreases |steps|, if steps != [] && steps[0].Ask? && steps[0].fallback.Some? then 1 else 0
  {
    if lines != [] && steps != [] {
      match steps[0]
      case Handshake => EncryptedStays(lines, steps[1..]);
      case Ask(_, grade, fallback) =>
        if Follows(lines[1..], steps[1..], true) {
          EncryptedStays(lines[1..], steps[1..]);
        } else {
          EncryptedStays(lines[1..], [Ask(fallback.value, grade, None)] + steps[1..]);
        }
        assert lines == [lines[0]] + lines[1..];
    }
  }

  /** What a table may write before its first handshake. */
  function Early(steps: seq<Step>): set<string> {
    if steps == [] || steps[0].Handshake? then {}
    else {steps[0].line} + (if steps[0].fallback.Some? then {steps[0].fallback.value} else {}) + Early(steps[1..])
  }

  lemma {:induction false} ClearLines(lines: seq<Sent>, steps: seq<Step>)
    requires Follows(lines, steps, false) && Handshake in steps
    ensures forall e | e in lines && !e.tls :: e.line in Early(steps)
    decreases |steps|, if steps != [] && steps[0].Ask? && steps[0].fallback.Some? then 1 else 0
  {
    if lines != [] {
      match steps[0]
      case Handshake => EncryptedStays(lines, steps[1..]);
      case Ask(_, grade, fallback) =>
        assert Handshake in steps[1..];
        if Follows(lines[1..], steps[1..], false) {
          ClearLines(lines[1..], steps[1..]);
        } else {
          var again := [Ask(fallback.value, grade, None)] + steps[1..];
          assert again[1..] == steps[1..];
          ClearLines(lines[1..], again);
        }
        assert lines == [lines[0]] + lines[1..];
    }
  }

  lemma EarlyUpgrade(rest: seq<Step>)
    ensures Early([Ask("STARTTLS", Code(220, Critical), None), Handshake] + rest) == {"STARTTLS"}
  {
    var steps := [Ask("STARTTLS", Code(220, Critical), None), Handshake] + rest;
    assert steps[1..] == [Handshake] + rest && Early([Handshake] + rest) == {};
  }

  lemma EarlyHello(o: Options, rest: seq<Step>)
    ensures Early(Hello(o) + rest) <= {o.Verb() + " " + o.helo, "HELO " + o.helo} + Early(rest)
  {
    assert (Hello(o) + rest)[1..] == rest;
  }

  lemma EarlySteps(o: Options)
    requires o.startTLS
    ensures Handshake in Steps(o)
    ensures Early(Steps(o)) <= {o.Verb() + " " + o.helo, "HELO " + o.helo, "STARTTLS"}
  {
    var rest := Hello(o) + (if o.CertificateOnly() then [] else Mail(o) + Scripted(o.commands));
    var upgrade := [Ask("STARTTLS", Code(220, Critical), None), Handshake];
    assert Steps(o) == Hello(o) + (upgrade + rest) && Steps(o)[2] == Handshake;
    EarlyUpgrade(rest);
    EarlyHello(o, upgrade + rest);
  }

  /** With STARTTLS asked for, nothing but greetings and the request itself is ever
      written in the clear: MAIL FROM and the scripted commands come after the
      handshake (section 4.2 of RFC 3207), and in certificate mode not at all. */
  lemma OnlyGreetingsInTheClear(o: Options, p: Peer)
    requires o.startTLS
    ensures forall e | e in Converse(o, p).written && !e.tls ::
              e.line in {o.Verb() + " " + o.helo, "HELO " + o.helo, "STARTTLS"}
  {
    ConversationFollowsTable(o, p);
    EarlySteps(o);
    ClearLines(Converse(o, p).written, Steps(o));
  }

  // ---------------------------------------------------------------- LMTP

  /** The conversation of a table without fallbacks. */
  function Dialogue(steps: seq<Step>, tls: bool): seq<Sent> {
    if steps == [] then [Sent("QUIT", tls)]
    else
      match steps[0]
      case Handshake => Dialogue(steps[1..], true)
      case Ask(line, _, _) => [Sent(line, tls)] + Dialogue(steps[1..], tls)
  }

  predicate Straight(steps: seq<Step>) {
    forall i | 0 <= i < |steps| && steps[i].Ask? :: steps[i].fallback.None?
  }

  lemma {:induction false} StraightFollows(lines: seq<Sent>, steps: seq<Step>, tls: bool)
    requires Follows(lines, steps, tls) && Straight(steps)
    ensures lines <= Dialogue(steps, tls)
    decreases |steps|
  {
    if lines != [] && steps != [] {
      match steps[0]
      case Handshake => StraightFollows(lines, steps[1..], true);
      case Ask(_, _, _) =>
        StraightFollows(lines[1..], steps[1..], tls);
        assert lines == [lines[0]] + lines[1..];
    }
  }

  lemma {:induction false} ScriptedStraight(commands: seq<Command>)
    ensures Straight(Scripted(commands))
  {
    if commands != [] {
      ScriptedStraight(commands[1..]);
    }
  }

  /** An LMTP conversation has one shape only: it never falls back to HELO
      (section 4.1 of RFC 2033), and each run writes a prefix of it. */
  lemma LmtpHasOneDialogue(o: Options, p: Peer)
    requires o.lmtp
    ensures Converse(o, p).written <= Dialogue(Steps(o), false)
  {
    ConversationFollowsTable(o, p);
    ScriptedStraight(o.commands);
    StraightFollows(Converse(o, p).written, Steps(o), false);
  }

  // ---------------------------------------------------------------- verdicts

  /** Every step from the k-th exchange on is answered well. */
  ghost predicate Satisfied(steps: seq<Step>, p: Peer, k: nat)
    decreases |steps|, if steps != [] && steps[0].Ask? && steps[0].fallback.Some? then 1 else 0
  {
    steps == [] ||
    match steps[0]
    case Handshake => p.handshake && Satisfied(steps[1..], p, k)
    case Ask(_, grade, fallback) =>
      && p.replies(k).Answer?
      && if Accepts(grade, p.replies(k)) then Satisfied(steps[1..], p, k + 1)
         else fallback.Some? && Satisfied([Ask(fallback.value, grade, None)] + steps[1..], p, k + 1)
  }

  predicate FailsBadly(steps: seq<Step>) {
    forall i | 0 <= i < |steps| && steps[i].Ask? :: Rejection(steps[i].grade) in {Warning, Critical}
  }

  lemma {:induction false} PlaySucceeds(s: State, steps: seq<Step>, p: Peer, success: Verdict)
    requires FailsBadly(steps) && success in {OK, Certified}
    ensures Play(s, steps, p, success).verdict == success <==> Satisfied(steps, p, s.next)
    ensures Play(s, steps, p, success).verdict in {success, Warning, Critical}
    decreases |steps|, if steps != [] && steps[0].Ask? && steps[0].fallback.Some? then 1 else 0
  {
    if steps == [] {
      return;
    }
    match steps[0]
    case Handshake => PlaySucceeds(s.(tls := true), steps[1..], p, success);
    case Ask(line, grade, fallback) =>
      PlaySucceeds(Wrote(s, line), steps[1..], p, success);
      if fallback.Some? {
        PlaySucceeds(Wrote(s, line), [Ask(fallback.value, grade, None)] + steps[1..], p, success);
      }
  }

  lemma {:induction false} ScriptedFailsBadly(commands: seq<Command>)
    ensures FailsBadly(Scripted(commands))
  {
    if commands != [] {
      ScriptedFailsBadly(commands[1..]);
    }
  }

  /** The probe succeeds exactly when the peer greets with 220 and answers every
      step of the table well. */
  lemma SucceedsExactlyWhen(o: Options, p: Peer)
    ensures Converse(o, p).verdict == Success(o) <==>
            p.replies(0).Answer? && p.replies(0).code == 220 && Satisfied(Steps(o), p, 1)
    ensures Converse(o, p).verdict in {Success(o), Warning, Critical}
  {
    ScriptedFailsBadly(o.commands);
    PlaySucceeds(State([], false, 1), Steps(o), p, Success(o));
  }

  /** The reply is there and contains what the command asked for, if anything. */
  ghost predicate Answers(c: Command, reply: Reply) {
    reply.Answer? && (c.wanted != "" ==> Banner.Contains(Full(reply.code, reply.line), c.wanted))
  }

  /** One exchange is behind every line written, and the greeting before them. */
  predicate Counted(s: State) { s.next == |s.written| + 1 }

  /** One well answered step of a table: what is exchanged, and what is played and
      still to be answered afterwards. */
  lemma OneStep(s: State, steps: seq<Step>, p: Peer, success: Verdict) returns (t: State, later: seq<Step>)
    requires Counted(s) && steps != [] && Satisfied(steps, p, s.next)
    ensures Counted(t) && Satisfied(later, p, t.next)
    ensures Play(s, steps, p, success) == Play(t, later, p, success)
    ensures steps[0].Handshake? ==> p.handshake && t == s.(tls := true) && later == steps[1..]
    ensures steps[0].Ask? ==> t == Wrote(s, steps[0].line) && p.replies(s.next).Answer?
    ensures steps[0].Ask? ==>
              if Accepts(steps[0].grade, p.replies(s.next)) then later == steps[1..]
              else steps[0].fallback.Some? && later == [Ask(steps[0].fallback.value, steps[0].grade, None)] + steps[1..]
  {
    match steps[0]
    case Handshake =>
      t, later := s.(tls := true), steps[1..];
    case Ask(line, grade, fallback) =>
      t := Wrote(s, line);
      later := if Accepts(grade, p.replies(s.next)) then steps[1..]
               else [Ask(fallback.value, grade, None)] + steps[1..];
  }

  /** The lines of the script, in order, on the connection as it is then. */
  function Lines(commands: seq<Command>, tls: bool): (ls: seq<Sent>)
    ensures |ls| == |commands| && forall i | 0 <= i < |ls| :: ls[i] == Sent(commands[i].send, tls)
  {
    if commands == [] then [] else [Sent(commands[0].send, tls)] + Lines(commands[1..], tls)
  }

  /** From the k-th exchange on, the replies answer the commands one by one. */
  ghost predicate Matched(commands: seq<Command>, p: Peer, k: nat) {
    forall i | 0 <= i < |commands| :: Answers(commands[i], p.replies(k + i))
  }

  lemma {:induction false} ScriptMatched(commands: seq<Command>, p: Peer, k: nat)
    requires Satisfied(Scripted(commands), p, k)
    ensures Matched(commands, p, k)
  {
    if commands != [] {
      var c := commands[0];
      assert Scripted(commands)[1..] == Scripted(commands[1..]);
      assert Answers(c, p.replies(k));
      ScriptMatched(commands[1..], p, k + 1);
      forall i | 0 < i < |commands|
        ensures Answers(commands[i], p.replies(k + i))
      {
        assert commands[1..][i - 1] == commands[i] && k + i == (k + 1) + (i - 1);
      }
    }
  }

  /** The state after every command has been sent. */
  function Ran(s: State, commands: seq<Command>): State
    decreases |commands|
  {
    if commands == [] then s else Ran(Wrote(s, commands[0].send), commands[1..])
  }

  lemma {:induction false} RanWrites(s: State, commands: seq<Command>)
    ensures Ran(s, commands) == State(s.written + Lines(commands, s.tls), s.tls, s.next + |commands|)
    decreases |commands|
  {
    if commands != [] {
      var line := [Sent(commands[0].send, s.tls)];
      RanWrites(Wrote(s, commands[0].send), commands[1..]);
      assert s.written + (line + Lines(commands[1..], s.tls)) == (s.written + line) + Lines(commands[1..], s.tls);
    }
  }

  lemma {:induction false} ScriptPlays(s: State, commands: seq<Command>, p: Peer, success: Verdict)
    requires Satisfied(Scripted(commands), p, s.next)
    ensures Play(s, Scripted(commands), p, success) == Final(Quit(Ran(s, commands), p), success)
    decreases |commands|
  {
    if commands != [] {
      assert Scripted(commands)[1..] == Scripted(commands[1..]);
      ScriptPlays(Wrote(s, commands[0].send), commands[1..], p, success);
    }
  }

  // ---------------------------------------------------------------- success

  /** The reply to line j of a conversation has this code. */
  predicate Said(p: Peer, j: nat, code: nat) {
    p.replies(j + 1).Answer? && p.replies(j + 1).code == code
  }

  /** A greeting from line k on: LHLO for LMTP, otherwise EHLO, and HELO after it if
      it was answered, but not with 250. */
  predicate Greets(o: Options, lines: seq<Sent>, tls: bool, p: Peer, k: nat) {
    var first := Sent((if o.lmtp then "LHLO " else "EHLO ") + o.helo, tls);
    || (lines == [first] && Said(p, k, 250))
    || (&& !o.lmtp && lines == [first, Sent("HELO " + o.helo, tls)]
        && p.replies(k + 1).Answer? && p.replies(k + 1).code != 250 && Said(p, k + 1, 250))
  }

  /** A greeting, and with STARTTLS that request, the handshake and a second one. */
  predicate Opens(o: Options, lines: seq<Sent>, first: seq<Sent>, second: seq<Sent>, p: Peer) {
    && Greets(o, first, false, p, 0)
    && (if o.startTLS then
          && lines == first + ([Sent("STARTTLS", false)] + second)
          && Said(p, |first|, 220) && p.handshake && Greets(o, second, true, p, |first| + 1)
        else lines == first)
  }

  ghost predicate Opened(o: Options, lines: seq<Sent>, p: Peer) {
    exists first, second :: Opens(o, lines, first, second, p)
  }

  /** The sender's address, if there is one, accepted. */
  predicate Addressed(o: Options, lines: seq<Sent>, p: Peer, k: nat) {
    if o.from == "" then lines == []
    else lines == [Sent("MAIL FROM:<" + o.from + ">", o.startTLS)] && Said(p, k, 250)
  }

  /** From s these steps lead to t, where the rest remains. */
  ghost predicate Leads(s: State, steps: seq<Step>, t: State, rest: seq<Step>, p: Peer, success: Verdict) {
    Counted(t) && Satisfied(rest, p, t.next) && Play(s, steps, p, success) == Play(t, rest, p, success)
  }

  function WroteAll(s: State, lines: seq<Sent>, tls: bool): State {
    State(s.written + lines, tls, s.next + |lines|)
  }

  lemma GreetingLeads(s: State, o: Options, rest: seq<Step>, p: Peer, success: Verdict)
      returns (lines: seq<Sent>, t: State)
    requires Counted(s) && Satisfied(Hello(o) + rest, p, s.next)
    ensures Greets(o, lines, s.tls, p, |s.written|) && t == WroteAll(s, lines, s.tls)
    ensures Leads(s, Hello(o) + rest, t, rest, p, success)
  {
    assert (Hello(o) + rest)[1..] == rest && (Hello(o) + rest)[0] == Hello(o)[0];
    var later;
    t, later := OneStep(s, Hello(o) + rest, p, success);
    assert o.Verb() + " " == if o.lmtp then "LHLO " else "EHLO ";
    lines := [Sent(o.Verb() + " " + o.helo, s.tls)];
    if later != rest {
      var second := [Ask("HELO " + o.helo, Code(250, Critical), None)];
      assert later == second + rest && (second + rest)[1..] == rest && (second + rest)[0] == second[0];
      var u, last := OneStep(t, later, p, success);
      lines := lines + [Sent("HELO " + o.helo, s.tls)];
      assert s.written + lines == u.written;
      t := u;
    }
  }

  lemma UpgradeLeads(s: State, o: Options, rest: seq<Step>, p: Peer, success: Verdict)
      returns (second: seq<Sent>, t: State)
    requires Counted(s) && o.startTLS && !s.tls && Satisfied(Upgrade(o) + rest, p, s.next)
    ensures Said(p, |s.written|, 220) && p.handshake && Greets(o, second, true, p, |s.written| + 1)
    ensures t == WroteAll(s, [Sent("STARTTLS", false)] + second, true)
    ensures Leads(s, Upgrade(o) + rest, t, rest, p, success)
  {
    var ask := Ask("STARTTLS", Code(220, Critical), None);
    var shake := [Handshake] + (Hello(o) + rest);
    assert Upgrade(o) + rest == [ask] + shake;
    assert ([ask] + shake)[1..] == shake && ([ask] + shake)[0] == ask && shake[1..] == Hello(o) + rest;
    var u, later := OneStep(s, [ask] + shake, p, success);
    var v, hello := OneStep(u, shake, p, success);
    second, t := GreetingLeads(v, o, rest, p, success);
    assert s.written + ([Sent("STARTTLS", false)] + second) == v.written + second;
  }

  lemma MailLeads(s: State, o: Options, rest: seq<Step>, p: Peer, success: Verdict)
      returns (lines: seq<Sent>, t: State)
    requires Counted(s) && s.tls == o.startTLS && Satisfied(Mail(o) + rest, p, s.next)
    ensures Addressed(o, lines, p, |s.written|) && t == WroteAll(s, lines, s.tls)
    ensures Leads(s, Mail(o) + rest, t, rest, p, success)
  {
    if o.from == "" {
      lines, t := [], s;
      assert Mail(o) + rest == rest && s.written + [] == s.written;
    } else {
      assert (Mail(o) + rest)[1..] == rest && (Mail(o) + rest)[0] == Mail(o)[0];
      var later;
      t, later := OneStep(s, Mail(o) + rest, p, success);
      lines := [Sent("MAIL FROM:<" + o.from + ">", s.tls)];
    }
  }

  /** The state after the conversation has been opened. */
  lemma OpeningLeads(o: Options, rest: seq<Step>, p: Peer, success: Verdict) returns (t: State)
    requires Satisfied(Hello(o) + (Upgrade(o) + rest), p, 1)
    ensures Opened(o, t.written, p) && t.tls == o.startTLS
    ensures Leads(State([], false, 1), Hello(o) + (Upgrade(o) + rest), t, rest, p, success)
  {
    var s := State([], false, 1);
    var first;
    first, t := GreetingLeads(s, o, Upgrade(o) + rest, p, success);
    assert s.written + first == first;
    if o.startTLS {
      var second, u := UpgradeLeads(t, o, rest, p, success);
      assert Opens(o, u.written, first, second, p);
      t := u;
    } else {
      assert Upgrade(o) + rest == rest;
      assert Opens(o, t.written, first, [], p);
    }
  }

  /** A conversation ends with this script, sent from line k on. */
  ghost predicate EndsWith(w: seq<Sent>, k: nat, commands: seq<Command>, tls: bool, p: Peer) {
    && k <= |w|
    && w[k..] == Lines(commands, tls) + (if p.replies(k + 1 + |commands|).Unwritable? then [] else [Sent("QUIT", tls)])
  }

  lemma ScriptEnds(t: State, commands: seq<Command>, p: Peer)
    requires Counted(t)
    ensures EndsWith(Quit(Ran(t, commands), p), |t.written|, commands, t.tls, p)
  {
    RanWrites(t, commands);
    var quit := if p.replies(t.next + |commands|).Unwritable? then [] else [Sent("QUIT", t.tls)];
    assert (t.written + Lines(commands, t.tls)) + quit == t.written + (Lines(commands, t.tls) + quit);
  }

  lemma RunsTheScript(s: State, commands: seq<Command>, p: Peer)
    requires Counted(s) && Satisfied(Scripted(commands), p, s.next)
    ensures EndsWith(Play(s, Scripted(commands), p, OK).written, |s.written|, commands, s.tls, p)
    ensures s.written <= Play(s, Scripted(commands), p, OK).written
    ensures Matched(commands, p, s.next)
  {
    ScriptMatched(commands, p, s.next);
    ScriptPlays(s, commands, p, OK);
    ScriptEnds(s, commands, p);
    RanWrites(s, commands);
  }

  lemma OkIsSatisfied(o: Options, p: Peer)
    requires Converse(o, p).verdict == OK
    ensures !o.CertificateOnly() && p.replies(0).Answer? && p.replies(0).code == 220
    ensures var steps := Hello(o) + (Upgrade(o) + (Mail(o) + Scripted(o.commands)));
            Satisfied(steps, p, 1) && Converse(o, p) == Play(State([], false, 1), steps, p, OK)
  {
    SucceedsExactlyWhen(o, p);
    assert Steps(o) == Hello(o) + (Upgrade(o) + (Mail(o) + Scripted(o.commands)));
  }

  /** Outside certificate mode, OK means that the whole conversation took place: the
      greeting, with STARTTLS the upgrade and a second greeting, the sender's
      address if there is one, each answered as it should be; then the whole script
      in order, over the encrypted connection if STARTTLS was asked for, the reply
      to each line containing what its command asked for; and QUIT if it could be
      written. Nothing else was written. */
  lemma OkMeansEverythingMatched(o: Options, p: Peer) returns (opening: seq<Sent>, mail: seq<Sent>)
    requires Converse(o, p).verdict == OK
    ensures !o.CertificateOnly() && p.replies(0).Answer? && p.replies(0).code == 220
    ensures Opened(o, opening, p) && Addressed(o, mail, p, |opening|)
    ensures var before := opening + mail;
            && before <= Converse(o, p).written
            && EndsWith(Converse(o, p).written, |before|, o.commands, o.startTLS, p)
            && Matched(o.commands, p, |before| + 1)
  {
    OkIsSatisfied(o, p);
    var t := OpeningLeads(o, Mail(o) + Scripted(o.commands), p, OK);
    opening := t.written;
    var u;
    mail, u := MailLeads(t, o, Scripted(o.commands), p, OK);
    RunsTheScript(u, o.commands, p);
  }

  /** In certificate mode success means that the upgrade took place, and nothing more
      was written but QUIT. */
  lemma CertifiedMeansUpgraded(o: Options, p: Peer) returns (opening: seq<Sent>)
    requires Converse(o, p).verdict == Certified
    ensures o.CertificateOnly() && Opened(o, opening, p)
    ensures Converse(o, p).written ==
            opening + if p.replies(|opening| + 1).Unwritable? then [] else [Sent("QUIT", true)]
  {
    SucceedsExactlyWhen(o, p);
    assert Steps(o) == Hello(o) + (Upgrade(o) + []);
    var t := OpeningLeads(o, [], p, Certified);
    opening := t.written;
  }

  // ---------------------------------------------------------------- failure

  /** Some step of the table writes this line and grades its reply like this. */
  ghost predicate Grades(steps: seq<Step>, line: string, grade: Grade) {
    exists i :: 0 <= i < |steps| && GradesAt(steps[i], line, grade)
  }

  predicate GradesAt(step: Step, line: string, grade: Grade) {
    step.Ask? && step.grade == grade && (step.line == line || step.fallback == Some(line))
  }

  lemma GradesTail(step: Step, again: seq<Step>, rest: seq<Step>, line: string, grade: Grade)
    requires Grades(again + rest, line, grade)
    requires forall r | r in again :: forall l, g :: GradesAt(r, l, g) ==> GradesAt(step, l, g)
    ensures Grades([step] + rest, line, grade)
  {
    var i :| 0 <= i < |again + rest| && GradesAt((again + rest)[i], line, grade);
    if i < |again| {
      assert (again + rest)[i] in again && GradesAt(([step] + rest)[0], line, grade);
    } else {
      assert GradesAt(([step] + rest)[i - |again| + 1], line, grade);
    }
  }

  ghost predicate Blames(w: seq<Sent>, steps: seq<Step>, p: Peer, verdict: Verdict, grade: Grade)
    requires w != [] && p.replies(|w|).Answer?
  {
    Grades(steps, w[|w| - 1].line, grade) && !Accepts(grade, p.replies(|w|)) && Rejection(grade) == verdict
  }

  /** The last line written was answered, and the answer rejected with this verdict. */
  ghost predicate Rejected(w: seq<Sent>, steps: seq<Step>, p: Peer, verdict: Verdict) {
    && w != [] && p.replies(|w|).Answer?
    && exists grade :: Blames(w, steps, p, verdict, grade)
  }

  /** The connection broke: the next line could not be written, or the last one got
      no reply. */
  predicate Broke(w: seq<Sent>, p: Peer) {
    p.replies(|w| + 1).Unwritable? || p.replies(|w|).Unread?
  }

  lemma RejectedTail(w: seq<Sent>, step: Step, again: seq<Step>, rest: seq<Step>, p: Peer, verdict: Verdict)
    requires Rejected(w, again + rest, p, verdict)
    requires forall r | r in again :: forall l, g :: GradesAt(r, l, g) ==> GradesAt(step, l, g)
    ensures Rejected(w, [step] + rest, p, verdict)
  {
    var grade :| Blames(w, again + rest, p, verdict, grade);
    GradesTail(step, again, rest, w[|w| - 1].line, grade);
    assert Blames(w, [step] + rest, p, verdict, grade);
  }

  ghost predicate Explained(w: seq<Sent>, steps: seq<Step>, p: Peer, verdict: Verdict, success: Verdict) {
    || verdict == success
    || Rejected(w, steps, p, verdict)
    || (verdict == Critical && (Broke(w, p) || (Handshake in steps && !p.handshake)))
  }

  lemma ExplainedTail(w: seq<Sent>, step: Step, again: seq<Step>, rest: seq<Step>, p: Peer, verdict: Verdict,
                      success: Verdict)
    requires Explained(w, again + rest, p, verdict, success)
    requires forall r | r in again :: r.Ask? && forall l, g :: GradesAt(r, l, g) ==> GradesAt(step, l, g)
    ensures Explained(w, [step] + rest, p, verdict, success)
  {
    if Rejected(w, again + rest, p, verdict) {
      RejectedTail(w, step, again, rest, p, verdict);
    }
    assert Handshake in again + rest ==> Handshake in rest;
  }

  lemma RejectedNow(w: seq<Sent>, step: Step, rest: seq<Step>, p: Peer)
    requires w != [] && step.Ask? && w[|w| - 1].line == step.line
    requires p.replies(|w|).Answer? && !Accepts(step.grade, p.replies(|w|))
    ensures Rejected(w, [step] + rest, p, Rejection(step.grade))
  {
    assert GradesAt(([step] + rest)[0], step.line, step.grade);
    assert Blames(w, [step] + rest, p, Rejection(step.grade), step.grade);
  }

  /** Why a conversation fails. */
  lemma {:induction false} PlayExplained(s: State, steps: seq<Step>, p: Peer, success: Verdict)
    requires Counted(s)
    ensures var f := Play(s, steps, p, success); Explained(f.written, steps, p, f.verdict, success)
    decreases |steps|, if steps != [] && steps[0].Ask? && steps[0].fallback.Some? then 1 else 0
  {
    if steps == [] {
      return;
    }
    var f, rest := Play(s, steps, p, success), steps[1..];
    assert steps == [steps[0]] + rest && [] + rest == rest;
    match steps[0]
    case Handshake =>
      if p.handshake {
        PlayExplained(s.(tls := true), rest, p, success);
        ExplainedTail(f.written, steps[0], [], rest, p, f.verdict, success);
      }
    case Ask(line, grade, fallback) =>
      var reply, t := p.replies(s.next), Wrote(s, line);
      if reply.Answer? && Accepts(grade, reply) {
        PlayExplained(t, rest, p, success);
        ExplainedTail(f.written, steps[0], [], rest, p, f.verdict, success);
      } else if reply.Answer? && fallback.Some? {
        var again := [Ask(fallback.value, grade, None)];
        PlayExplained(t, again + rest, p, success);
        ExplainedTail(f.written, steps[0], again, rest, p, f.verdict, success);
      } else if reply.Answer? {
        RejectedNow(t.written, steps[0], rest, p);
      }
  }

  lemma {:induction false} ScriptGrades(commands: seq<Command>, line: string, grade: Grade)
    requires Grades(Scripted(commands), line, grade)
    ensures exists c :: c in commands && c.send == line && grade == if c.wanted == "" then Ungraded else Text(c.wanted)
  {
    var c := commands[0];
    var i :| 0 <= i < |Scripted(commands)| && GradesAt(Scripted(commands)[i], line, grade);
    if i == 0 {
      assert c in commands;
    } else {
      assert Scripted(commands)[i] == Scripted(commands[1..])[i - 1];
      assert Grades(Scripted(commands[1..]), line, grade);
      ScriptGrades(commands[1..], line, grade);
      var d :| d in commands[1..] && d.send == line && grade == if d.wanted == "" then Ungraded else Text(d.wanted);
      assert d in commands;
    }
  }

  lemma GradesParts(a: seq<Step>, b: seq<Step>, line: string, grade: Grade)
    requires Grades(a + b, line, grade)
    ensures Grades(a, line, grade) || Grades(b, line, grade)
  {
    var i :| 0 <= i < |a + b| && GradesAt((a + b)[i], line, grade);
    assert i < |a| ==> GradesAt(a[i], line, grade);
    assert i >= |a| ==> GradesAt(b[i - |a|], line, grade);
  }

  /** Greetings and the upgrade must be answered by the right code. */
  predicate Vital(o: Options, line: string, reply: Reply)
    requires reply.Answer?
  {
    || (line in {o.Verb() + " " + o.helo, "HELO " + o.helo} && reply.code != 250)
    || (o.startTLS && line == "STARTTLS" && reply.code != 220)
  }

  /** So should the sender, and the commands by the text they ask for. */
  ghost predicate Minor(o: Options, line: string, reply: Reply)
    requires reply.Answer?
  {
    || (o.from != "" && line == "MAIL FROM:<" + o.from + ">" && reply.code != 250)
    || exists c :: c in o.commands && c.send == line && c.wanted != "" &&
                   !Banner.Contains(Full(reply.code, reply.line), c.wanted)
  }

  lemma OpeningGrades(o: Options, line: string, grade: Grade, reply: Reply)
    requires reply.Answer? && !Accepts(grade, reply)
    requires Grades(Hello(o), line, grade) || Grades(Upgrade(o), line, grade)
    ensures Rejection(grade) == Critical && Vital(o, line, reply)
  {
    if o.startTLS && Grades(Upgrade(o), line, grade) {
      var ask := [Ask("STARTTLS", Code(220, Critical), None), Handshake];
      GradesParts(ask, Hello(o), line, grade);
    }
  }

  lemma BodyGrades(o: Options, line: string, grade: Grade, reply: Reply)
    requires reply.Answer? && !Accepts(grade, reply)
    requires Grades(Mail(o) + Scripted(o.commands), line, grade)
    ensures Rejection(grade) == Warning && Minor(o, line, reply)
  {
    GradesParts(Mail(o), Scripted(o.commands), line, grade);
    if !Grades(Mail(o), line, grade) {
      ScriptGrades(o.commands, line, grade);
    }
  }

  lemma TableGrades(o: Options, line: string, grade: Grade, reply: Reply)
    requires reply.Answer? && Grades(Steps(o), line, grade) && !Accepts(grade, reply)
    ensures if Rejection(grade) == Critical then Vital(o, line, reply)
            else Rejection(grade) == Warning && Minor(o, line, reply)
  {
    var rest := if o.CertificateOnly() then [] else Mail(o) + Scripted(o.commands);
    GradesParts(Hello(o), Upgrade(o) + rest, line, grade);
    if Grades(Hello(o), line, grade) {
      OpeningGrades(o, line, grade, reply);
    } else {
      GradesParts(Upgrade(o), rest, line, grade);
      if Grades(Upgrade(o), line, grade) {
        OpeningGrades(o, line, grade, reply);
      } else {
        BodyGrades(o, line, grade, reply);
      }
    }
  }

  /** Why a probe does not succeed. WARNING: the last line written was answered, and
      was the sender's address or a command whose reply was not the one asked for.
      CRITICAL: the peer did not greet with 220, the connection broke, a greeting or
      the upgrade was refused, or the handshake failed. */
  lemma FailureMeans(o: Options, p: Peer)
    ensures var f := Converse(o, p);
            var w := f.written;
            && (f.verdict == Warning ==> w != [] && p.replies(|w|).Answer? && Minor(o, w[|w| - 1].line, p.replies(|w|)))
            && (f.verdict == Critical ==>
                  || (w == [] && !(p.replies(0).Answer? && p.replies(0).code == 220))
                  || Broke(w, p) || (o.startTLS && !p.handshake)
                  || (w != [] && p.replies(|w|).Answer? && Vital(o, w[|w| - 1].line, p.replies(|w|))))
  {
    if p.replies(0).Answer? && p.replies(0).code == 220 {
      var f := Converse(o, p);
      PlayExplained(State([], false, 1), Steps(o), p, Success(o));
      if Rejected(f.written, Steps(o), p, f.verdict) {
        var line, reply := f.written[|f.written| - 1].line, p.replies(|f.written|);
        var grade :| Blames(f.written, Steps(o), p, f.verdict, grade);
        TableGrades(o, line, grade, reply);
      }
      HandshakeAsked(o);
    }
  }

  lemma HandshakeAsked(o: Options)
    ensures Handshake in Steps(o) ==> o.startTLS
  {
    ScriptedAsks(o.commands);
  }

  lemma {:induction false} ScriptedAsks(commands: seq<Command>)
    ensures Handshake !in Scripted(commands)
  {
    if commands != [] {
      ScriptedAsks(commands[1..]);
    }
  }
}
