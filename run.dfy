/** What one run of the site loop does, as functions of the probes it makes: the
    `status` rows, the alerts mailed, the `message_sent` rows and the order of
    these side effects. The class in module Checker is proved against these. */
module Run {
  import opened PyFormat
  import opened Classify

  /** One site of the loop together with what the world answered for it: the
      request's outcome, the clock reading while it was checked, and whether the
      SMTP server accepted the alert should one be sent. */
  datatype Probe = Probe(name: string, url: string, outcome: Outcome, at: nat, mailDelivered: bool)

  /** The arguments the loop passes to `send_status` besides name and url. */
  datatype Observation = Observation(statusCode: Option<int>, elapsed: Option<real>, message: Option<string>)

  /** A response is passed on with its code and elapsed time and no message; an
      exception is passed on with no code, no elapsed time and the message of the
      first `except` clause that catches it. */
  function Observe(o: Outcome): (obs: Observation)
    ensures o.TransportFailure? <==> obs.statusCode.None?
    ensures obs.statusCode.None? <==> obs.elapsed.None?
    ensures obs.message.Some? <==> o.TransportFailure?
    ensures o.Responded? ==> obs.statusCode == Some(o.code) && obs.elapsed == Some(o.elapsed)
    ensures o.TransportFailure? && o.kind == SSL ==> obs.message == Some("SSL error")
    ensures o.TransportFailure? && o.kind == Connection ==> obs.message == Some("failed to connect")
    ensures o.TransportFailure? && o.kind == Other ==> obs.message == Some("other failure: " + o.detail)
  {
    match o
    case Responded(code, elapsed) => Observation(Some(code), Some(elapsed), None)
    case TransportFailure(kind, detail) => Observation(None, None, Some(FailureMessage(kind, detail)))
  }

  predicate Fails(p: Probe) {
    IsFailure(Observe(p.outcome).statusCode)
  }

  /** A probe fails exactly when the request raised or the code is above 200. */
  lemma FailsExactly(p: Probe)
    ensures Fails(p) <==> p.outcome.TransportFailure? || p.outcome.code > 200
  {
  }

  /** A failing check whose alert the SMTP server refused: the exception escapes the loop. */
  predicate Aborts(p: Probe) {
    Fails(p) && !p.mailDelivered
  }

  function RowOf(p: Probe): StatusRow {
    var obs := Observe(p.outcome);
    StatusRowFor(p.at, p.name, p.url, obs.statusCode, obs.elapsed, obs.message)
  }

  function AlertOf(emailFrom: string, emailTo: string, p: Probe): Mail {
    var obs := Observe(p.outcome);
    Mail(emailFrom, emailTo, AlertSubject(p.name), AlertBody(p.name, p.url, obs.statusCode, obs.message))
  }

  function SentRowOf(emailFrom: string, emailTo: string, p: Probe): MessageRow {
    var m := AlertOf(emailFrom, emailTo, p);
    MessageRow(p.at, emailTo, emailFrom, m.subject, m.body)
  }

  /** The invariant of a `status` row: success is derived from the code,
      elapsed is there exactly when the code is, and a failure always carries a message. */
  predicate WellFormed(r: StatusRow) {
    && (r.success <==> r.statusCode.Some? && r.statusCode.value <= 200)
    && (r.statusCode.None? <==> r.elapsed.None?)
    && (!r.success ==> r.message.Some?)
  }

  /** Each probe's row keeps the row invariant; on failure its message is the alert
      body, never the raw message; on success it is `None`. */
  lemma RowOfFacts(p: Probe)
    ensures WellFormed(RowOf(p))
    ensures RowOf(p).success == !Fails(p)
    ensures Fails(p) ==> RowOf(p).message == Some(AlertBody(p.name, p.url, Observe(p.outcome).statusCode, Observe(p.outcome).message))
    ensures !Fails(p) ==> RowOf(p).message == None
    ensures p.outcome.TransportFailure? ==> !RowOf(p).success && RowOf(p).statusCode == None
  {
  }

  /** What each kind of outcome leaves in the probe's `status` row: a response its
      code and elapsed time, an exception no code and the alert body built around
      the message of the clause that caught it. */
  lemma RowOfOutcome(p: Probe)
    ensures p.outcome.Responded? ==>
      RowOf(p).statusCode == Some(p.outcome.code) && RowOf(p).elapsed == Some(p.outcome.elapsed)
    ensures p.outcome.TransportFailure? ==>
      var m := match p.outcome.kind
        case SSL => "SSL error"
        case Connection => "failed to connect"
        case Other => "other failure: " + p.outcome.detail;
      && RowOf(p).statusCode == None && RowOf(p).elapsed == None
      && RowOf(p).message == Some(AlertBody(p.name, p.url, None, Some(m)))
  {
  }

  /** The number of probes the loop finishes: it stops at the first one whose alert
      could not be mailed. */
  function Completed(ps: seq<Probe>): (n: nat)
    ensures n <= |ps|
    ensures forall i :: 0 <= i < n ==> !Aborts(ps[i])
    ensures n < |ps| ==> Aborts(ps[n])
  {
    if ps == [] || Aborts(ps[0]) then 0 else 1 + Completed(ps[1..])
  }

  /** The loop finishes exactly the probes before the first refused alert. */
  lemma CompletedAt(ps: seq<Probe>, n: nat)
    requires n <= |ps|
    requires forall i :: 0 <= i < n ==> !Aborts(ps[i])
    requires n < |ps| ==> Aborts(ps[n])
    ensures Completed(ps) == n
  {
  }

  /** Without a refused alert the loop visits every probe. */
  lemma CompletedAll(ps: seq<Probe>)
    ensures Completed(ps) == |ps| <==> forall i :: 0 <= i < |ps| ==> !Aborts(ps[i])
  {
  }

  /** The rows appended to `status`, in the order probed. */
  function Rows(ps: seq<Probe>): (rows: seq<StatusRow>)
    ensures |rows| == |ps|
  {
    if ps == [] then [] else Rows(ps[..|ps| - 1]) + [RowOf(ps[|ps| - 1])]
  }

  /** Exactly one row per probe: the i-th row is the i-th probe's. */
  lemma {:induction false} RowsAt(ps: seq<Probe>, i: nat)
    requires i < |ps|
    ensures Rows(ps)[i] == RowOf(ps[i])
  {
    if i < |ps| - 1 {
      RowsAt(ps[..|ps| - 1], i);
    }
  }

  /** The probes that raise an alert, in the order probed. */
  function Alerted(ps: seq<Probe>): (r: seq<Probe>)
    ensures |r| <= |ps|
    ensures forall i :: 0 <= i < |r| ==> Fails(r[i])
  {
    if ps == [] then []
    else
      var last := ps[|ps| - 1];
      Alerted(ps[..|ps| - 1]) + if Fails(last) then [last] else []
  }

  /** The mails handed to the SMTP server: one per failing probe, in the order probed. */
  function Mails(emailFrom: string, emailTo: string, ps: seq<Probe>): seq<Mail> {
    if ps == [] then []
    else
      var last := ps[|ps| - 1];
      Mails(emailFrom, emailTo, ps[..|ps| - 1]) + if Fails(last) then [AlertOf(emailFrom, emailTo, last)] else []
  }

  /** The rows appended to `message_sent`: one per failing probe, in the order probed. */
  function SentRows(emailFrom: string, emailTo: string, ps: seq<Probe>): seq<MessageRow> {
    if ps == [] then []
    else
      var last := ps[|ps| - 1];
      SentRows(emailFrom, emailTo, ps[..|ps| - 1]) + if Fails(last) then [SentRowOf(emailFrom, emailTo, last)] else []
  }

  /** The mails and the `message_sent` rows are the alerted probes' alerts, one each, in order. */
  lemma {:induction false} AlertsOfAlerted(emailFrom: string, emailTo: string, ps: seq<Probe>)
    ensures |Mails(emailFrom, emailTo, ps)| == |SentRows(emailFrom, emailTo, ps)| == |Alerted(ps)|
    ensures forall j :: 0 <= j < |Alerted(ps)| ==>
      Mails(emailFrom, emailTo, ps)[j] == AlertOf(emailFrom, emailTo, Alerted(ps)[j]) &&
      SentRows(emailFrom, emailTo, ps)[j] == SentRowOf(emailFrom, emailTo, Alerted(ps)[j])
  {
    if ps != [] {
      AlertsOfAlerted(emailFrom, emailTo, ps[..|ps| - 1]);
    }
  }

  /** The side effects of a run in the order they happen. */
  datatype Effect = MailSent(mail: Mail) | MessageInserted(sent: MessageRow) | StatusInserted(row: StatusRow)

  /** A failing check mails and records the alert before it inserts its status row. */
  function ProbeEffects(emailFrom: string, emailTo: string, p: Probe): seq<Effect> {
    (if Fails(p) then [MailSent(AlertOf(emailFrom, emailTo, p)), MessageInserted(SentRowOf(emailFrom, emailTo, p))] else [])
    + [StatusInserted(RowOf(p))]
  }

  function Effects(emailFrom: string, emailTo: string, ps: seq<Probe>): seq<Effect> {
    if ps == [] then []
    else Effects(emailFrom, emailTo, ps[..|ps| - 1]) + ProbeEffects(emailFrom, emailTo, ps[|ps| - 1])
  }

  /** Everything a run writes: the rows of both tables, the mails and the side effects. */
  datatype Writes = Writes(status: seq<StatusRow>, messageSent: seq<MessageRow>, outbox: seq<Mail>, effects: seq<Effect>)

  const NoWrites := Writes([], [], [], [])

  /** What is written by `a` and then by `b`. */
  function Then(a: Writes, b: Writes): Writes {
    Writes(a.status + b.status, a.messageSent + b.messageSent, a.outbox + b.outbox, a.effects + b.effects)
  }

  lemma ThenAssociative(a: Writes, b: Writes, c: Writes)
    ensures Then(Then(a, b), c) == Then(a, Then(b, c))
  {
    assert (a.status + b.status) + c.status == a.status + (b.status + c.status);
  }

  function RunWrites(emailFrom: string, emailTo: string, ps: seq<Probe>): Writes {
    Writes(Rows(ps), SentRows(emailFrom, emailTo, ps), Mails(emailFrom, emailTo, ps), Effects(emailFrom, emailTo, ps))
  }

  /** What one finished check writes: its row, and its alert when it fails. */
  function ProbeWrites(emailFrom: string, emailTo: string, p: Probe): Writes {
    var alerted := Fails(p);
    Writes([RowOf(p)],
           if alerted then [SentRowOf(emailFrom, emailTo, p)] else [],
           if alerted then [AlertOf(emailFrom, emailTo, p)] else [],
           ProbeEffects(emailFrom, emailTo, p))
  }

  /** Extending a run by one probe extends what it writes by that probe's writes. */
  lemma RunStep(emailFrom: string, emailTo: string, ps: seq<Probe>, i: nat)
    requires i < |ps|
    ensures RunWrites(emailFrom, emailTo, ps[..i + 1]) ==
            Then(RunWrites(emailFrom, emailTo, ps[..i]), ProbeWrites(emailFrom, emailTo, ps[i]))
  {
    assert ps[..i + 1][..i] == ps[..i];
  }

  /** A run keeps no memory of earlier probes: probing `a` and then `b` writes what
      each writes alone, so a site that stays down is alerted on every run. */
  lemma {:induction false} RunWritesAppend(emailFrom: string, emailTo: string, a: seq<Probe>, b: seq<Probe>)
    ensures RunWrites(emailFrom, emailTo, a + b) == Then(RunWrites(emailFrom, emailTo, a), RunWrites(emailFrom, emailTo, b))
    decreases |b|
  {
    if b == [] {
      assert a + b == a;
    } else {
      var n := |b| - 1;
      var ab := a + b;
      RunWritesAppend(emailFrom, emailTo, a, b[..n]);
      assert ab[..|ab| - 1] == a + b[..n] && ab[|ab| - 1] == b[n];
      RunWritesSnoc(emailFrom, emailTo, ab);
      RunWritesSnoc(emailFrom, emailTo, b);
      ThenAssociative(RunWrites(emailFrom, emailTo, a), RunWrites(emailFrom, emailTo, b[..n]), ProbeWrites(emailFrom, emailTo, b[n]));
    }
  }

  lemma RunWritesSnoc(emailFrom: string, emailTo: string, ps: seq<Probe>)
    requires ps != []
    ensures RunWrites(emailFrom, emailTo, ps) ==
            Then(RunWrites(emailFrom, emailTo, ps[..|ps| - 1]), ProbeWrites(emailFrom, emailTo, ps[|ps| - 1]))
  {
  }

  /** The set of positions of failing probes. */
  function FailingPositions(ps: seq<Probe>): set<nat> {
    set i: nat | i < |ps| && Fails(ps[i])
  }

  /** One alert per failing probe: as many alerts as failing positions. */
  lemma {:induction false} AlertedCount(ps: seq<Probe>)
    ensures |Alerted(ps)| == |FailingPositions(ps)|
  {
    if ps != [] {
      var n := |ps| - 1;
      AlertedCount(ps[..n]);
      FailingPositionsSnoc(ps);
    }
  }

  lemma FailingPositionsSnoc(ps: seq<Probe>)
    requires ps != []
    ensures var n := |ps| - 1;
      n !in FailingPositions(ps[..n]) &&
      FailingPositions(ps) == FailingPositions(ps[..n]) + if Fails(ps[n]) then {n} else {}
  {
    var n := |ps| - 1;
    var init := ps[..n];
    forall i: nat | i < n
      ensures i in FailingPositions(ps) <==> i in FailingPositions(init)
    {
      assert init[i] == ps[i];
    }
  }

  /** Each probe is alerted exactly as often as it occurs, if it fails, and never otherwise. */
  lemma {:induction false} AlertedMultiplicity(ps: seq<Probe>, p: Probe)
    ensures multiset(Alerted(ps))[p] == if Fails(p) then multiset(ps)[p] else 0
  {
    if ps != [] {
      var n := |ps| - 1;
      AlertedMultiplicity(ps[..n], p);
      assert ps == ps[..n] + [ps[n]];
    }
  }

  /** A single probe is alerted exactly when it fails. */
  lemma AlertedSingle(p: Probe)
    ensures Alerted([p]) == if Fails(p) then [p] else []
  {
    assert [p][..0] == [];
  }

  /** Alerting keeps the order of probing: the alerts of `a` and then `b` are
      those of `a` followed by those of `b`. With AlertedSingle this makes the
      alerted probes exactly the failing probes of a run, in order. */
  lemma {:induction false} AlertedAppend(a: seq<Probe>, b: seq<Probe>)
    ensures Alerted(a + b) == Alerted(a) + Alerted(b)
    decreases |b|
  {
    if b == [] {
      assert a + b == a;
    } else {
      var n := |b| - 1;
      var ab := a + b;
      var tail := if Fails(b[n]) then [b[n]] else [];
      AlertedAppend(a, b[..n]);
      assert ab[..|ab| - 1] == a + b[..n] && ab[|ab| - 1] == b[n];
      assert Alerted(ab) == Alerted(a + b[..n]) + tail;
      assert Alerted(b) == Alerted(b[..n]) + tail;
      assert (Alerted(a) + Alerted(b[..n])) + tail == Alerted(a) + (Alerted(b[..n]) + tail);
    }
  }

  /** A site that is down on every probe is alerted on every probe. */
  lemma {:induction false} AlertedAllFailing(ps: seq<Probe>)
    requires forall i :: 0 <= i < |ps| ==> Fails(ps[i])
    ensures Alerted(ps) == ps
  {
    if ps != [] {
      AlertedAllFailing(ps[..|ps| - 1]);
    }
  }

  /** Two consecutive runs against a site that is down both times, whatever the
      clock reads and however it fails, with both alerts accepted: what the loop
      writes on the two runs is two rows and two alerts, the second not suppressed
      by the first. */
  lemma NoSuppression(emailFrom: string, emailTo: string, p1: Probe, p2: Probe)
    requires p1.name == p2.name && p1.url == p2.url
    requires Fails(p1) && Fails(p2)
    requires p1.mailDelivered && p2.mailDelivered
    ensures var twice := Then(RunWrites(emailFrom, emailTo, [p1][..Completed([p1])]),
                              RunWrites(emailFrom, emailTo, [p2][..Completed([p2])]));
      && twice.status == [RowOf(p1), RowOf(p2)]
      && twice.outbox == [AlertOf(emailFrom, emailTo, p1), AlertOf(emailFrom, emailTo, p2)]
      && twice.messageSent == [SentRowOf(emailFrom, emailTo, p1), SentRowOf(emailFrom, emailTo, p2)]
      && twice.outbox[0].subject == twice.outbox[1].subject
  {
    CompletedAt([p1], 1);
    CompletedAt([p2], 1);
    assert [p1][..1] == [p1] && [p2][..1] == [p2];
    RunWritesSnoc(emailFrom, emailTo, [p1]);
    RunWritesSnoc(emailFrom, emailTo, [p2]);
    assert [p1][..0] == [] && [p2][..0] == [];
  }

  /** A run with no refused alert visits every probe, grows `status` by the number
      of probes and `message_sent` by the number of failing probes. */
  lemma RunCounts(emailFrom: string, emailTo: string, ps: seq<Probe>)
    requires forall i :: 0 <= i < |ps| ==> !Aborts(ps[i])
    ensures Completed(ps) == |ps|
    ensures var w := RunWrites(emailFrom, emailTo, ps[..Completed(ps)]);
      |w.status| == |ps| && |w.messageSent| == |w.outbox| == |FailingPositions(ps)|
  {
    CompletedAt(ps, |ps|);
    assert ps[..|ps|] == ps;
    AlertedCount(ps);
    AlertsOfAlerted(emailFrom, emailTo, ps);
  }

  /** With a clock that never goes back, the rows' checked dates never go back. */
  lemma {:induction false} CheckedDatesMonotone(ps: seq<Probe>)
    requires forall i, j :: 0 <= i <= j < |ps| ==> ps[i].at <= ps[j].at
    ensures forall i, j :: 0 <= i <= j < |ps| ==> Rows(ps)[i].checkedDate <= Rows(ps)[j].checkedDate
  {
    forall i, j | 0 <= i <= j < |ps|
      ensures Rows(ps)[i].checkedDate <= Rows(ps)[j].checkedDate
    {
      RowsAt(ps, i);
      RowsAt(ps, j);
    }
  }

  /** Probing a site that answers 200: one successful row, no alert and no `message_sent` row. */
  lemma ScenarioOk(emailFrom: string, emailTo: string, name: string, url: string, at: nat, e: real)
    ensures var p := Probe(name, url, Responded(200, e), at, true);
      && Rows([p]) == [StatusRow(at, name, url, Some(200), Some(e), None, true)]
      && Mails(emailFrom, emailTo, [p]) == []
      && SentRows(emailFrom, emailTo, [p]) == []
  {
    var p := Probe(name, url, Responded(200, e), at, true);
    assert [p][..0] == [];
  }

  /** Probing a site that answers 404: one failed row and one alert naming the site. */
  lemma ScenarioNotFound(emailFrom: string, emailTo: string, name: string, url: string, at: nat, e: real)
    ensures var p := Probe(name, url, Responded(404, e), at, true);
      var body := AlertBody(name, url, Some(404), None);
      && Rows([p]) == [StatusRow(at, name, url, Some(404), Some(e), Some(body), false)]
      && Mails(emailFrom, emailTo, [p]) == [Mail(emailFrom, emailTo, "site: " + name + " is down!", body)]
      && SentRows(emailFrom, emailTo, [p]) == [MessageRow(at, emailTo, emailFrom, "site: " + name + " is down!", body)]
  {
    var p := Probe(name, url, Responded(404, e), at, true);
    assert [p][..0] == [];
  }

  /** Probing a site whose TLS handshake fails: no code, "SSL error", one alert. */
  lemma ScenarioSsl(emailFrom: string, emailTo: string, name: string, url: string, at: nat, detail: string)
    ensures var p := Probe(name, url, TransportFailure(SSL, detail), at, true);
      var body := AlertBody(name, url, None, Some("SSL error"));
      && Rows([p]) == [StatusRow(at, name, url, None, None, Some(body), false)]
      && Mails(emailFrom, emailTo, [p]) == [Mail(emailFrom, emailTo, "site: " + name + " is down!", body)]
      && SentRows(emailFrom, emailTo, [p]) == [MessageRow(at, emailTo, emailFrom, "site: " + name + " is down!", body)]
  {
    var p := Probe(name, url, TransportFailure(SSL, detail), at, true);
    assert [p][..0] == [];
  }
}
