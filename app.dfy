/** The checker application: the local database's two tables, the mail server's
    outbox, and the operations that probe sites, record results and send alerts. */
module Checker {
  import opened PyFormat
  import opened Classify
  import opened Run

  class App {
    const emailFrom: string
    const emailTo: string

    // the local database: whether each table exists, and its rows in insertion order
    var statusExists: bool
    var messageSentExists: bool
    var status: seq<StatusRow>
    var messageSent: seq<MessageRow>

    // the mails this application handed to the SMTP server
    var outbox: seq<Mail>

    // every side effect so far, in the order it happened
    ghost var effects: seq<Effect>

    /** The tables' rows, the outbox and the side effects, as one value. */
    ghost function Written(): Writes
      reads this
    {
      Writes(status, messageSent, outbox, effects)
    }

    /** A table that does not exist has no rows. */
    ghost predicate Valid()
      reads this
    {
      && (!statusExists ==> status == [])
      && (!messageSentExists ==> messageSent == [])
    }

    /** Valid, with both tables created. */
    ghost predicate Open()
      reads this
    {
      Valid() && statusExists && messageSentExists
    }

    /** Reads the configuration and opens the database file as it is on disk
        (`None` for a table that does not exist yet), then creates the tables. */
    constructor (emailFrom: string, emailTo: string,
                 statusTable: Option<seq<StatusRow>>, messageSentTable: Option<seq<MessageRow>>)
      ensures Open()
      ensures this.emailFrom == emailFrom && this.emailTo == emailTo
      ensures status == (if statusTable.Some? then statusTable.value else [])
      ensures messageSent == (if messageSentTable.Some? then messageSentTable.value else [])
      ensures outbox == [] && effects == []
    {
      this.emailFrom := emailFrom;
      this.emailTo := emailTo;
      statusExists := statusTable.Some?;
      status := if statusTable.Some? then statusTable.value else [];
      messageSentExists := messageSentTable.Some?;
      messageSent := if messageSentTable.Some? then messageSentTable.value else [];
      outbox := [];
      effects := [];
      new;
      OpenDbConnections();
    }

    /** CREATE TABLE IF NOT EXISTS for both tables: creates what is missing, keeps
        every existing row, and changes nothing when both tables exist. */
    method OpenDbConnections()
      requires Valid()
      modifies this
      ensures Open()
      ensures status == old(status) && messageSent == old(messageSent)
      ensures outbox == old(outbox) && effects == old(effects)
      ensures old(statusExists) && old(messageSentExists) ==> unchanged(this)
    {
      if !statusExists {
        statusExists := true;
        status := [];
      }
      if !messageSentExists {
        messageSentExists := true;
        messageSent := [];
      }
    }

    /** Mails the alert and, only once the SMTP server has accepted it, records it
        in `message_sent`. `delivered` is what the SMTP session answered; when it
        refuses, the exception leaves everything as it was. */
    method SendMessage(subject: string, body: string, now: nat, delivered: bool) returns (sent: bool)
      requires Open()
      modifies this
      ensures Open()
      ensures sent == delivered
      ensures status == old(status)
      ensures var m := Mail(emailFrom, emailTo, subject, body);
              var row := MessageRow(now, emailTo, emailFrom, subject, body);
              if sent then
                && outbox == old(outbox) + [m]
                && messageSent == old(messageSent) + [row]
                && effects == old(effects) + [MailSent(m), MessageInserted(row)]
              else
                outbox == old(outbox) && messageSent == old(messageSent) && effects == old(effects)
    {
      if !delivered {
        return false;
      }
      var m := Mail(emailFrom, emailTo, subject, body);
      outbox := outbox + [m];
      effects := effects + [MailSent(m)];
      var row := MessageRow(now, emailTo, emailFrom, subject, body);
      messageSent := messageSent + [row];
      effects := effects + [MessageInserted(row)];
      sent := true;
    }

    /** Classifies one check, alerts on failure, and appends its `status` row. A
        failure sends exactly one alert before the row is inserted, and stores the
        alert body as the row's message; a success sends nothing. When the alert is
        refused the exception escapes and no row is written (`ok` is false). */
    method SendStatus(siteName: string, siteUrl: string, statusCode: Option<int>, elapsed: Option<real>,
                      message: Option<string>, now: nat, mailDelivered: bool) returns (ok: bool)
      requires Open()
      modifies this
      ensures Open()
      ensures ok <==> !IsFailure(statusCode) || mailDelivered
      ensures var row := StatusRowFor(now, siteName, siteUrl, statusCode, elapsed, message);
              var m := Mail(emailFrom, emailTo, AlertSubject(siteName), AlertBody(siteName, siteUrl, statusCode, message));
              var sent := MessageRow(now, emailTo, emailFrom, m.subject, m.body);
              var alerted := IsFailure(statusCode) && ok;
              && status == old(status) + (if ok then [row] else [])
              && outbox == old(outbox) + (if alerted then [m] else [])
              && messageSent == old(messageSent) + (if alerted then [sent] else [])
              && effects == old(effects) + (if alerted then [MailSent(m), MessageInserted(sent)] else [])
                                        + (if ok then [StatusInserted(row)] else [])
    {
      var success: bool;
      var stored := message;
      if statusCode == None || statusCode.value > 200 {
        success := false;
        var subject := AlertSubject(siteName);
        var body := AlertBody(siteName, siteUrl, statusCode, message);
        stored := Some(body);
        var sent := SendMessage(subject, body, now, mailDelivered);
        if !sent {
          return false;
        }
      } else {
        success := true;
      }
      var row := StatusRow(now, siteName, siteUrl, statusCode, elapsed, stored, success);
      status := status + [row];
      effects := effects + [StatusInserted(row)];
      ok := true;
    }

    /** One pass of the loop's body: the request's outcome goes to SendStatus,
        a response with its code and elapsed time, an exception with the message
        of the first `except` clause that catches it. */
    method CheckSite(p: Probe) returns (ok: bool)
      requires Open()
      modifies this
      ensures Open()
      ensures ok == !Aborts(p)
      ensures Written() == Then(old(Written()), if ok then ProbeWrites(emailFrom, emailTo, p) else NoWrites)
    {
      match p.outcome {
        case Responded(code, elapsed) =>
          ok := SendStatus(p.name, p.url, Some(code), Some(elapsed), None, p.at, p.mailDelivered);
        case TransportFailure(kind, detail) =>
          var message := FailureMessage(kind, detail);
          ok := SendStatus(p.name, p.url, None, None, Some(message), p.at, p.mailDelivered);
      }
    }

    /** The loop over the configured sites: each probe is checked in order, each
        exactly once, until a refused alert ends the run. `completed` is the number
        of sites whose check finished. */
    method CheckSites(ps: seq<Probe>) returns (completed: nat)
      requires Open()
      modifies this
      ensures Open()
      ensures completed == Completed(ps)
      ensures Written() == Then(old(Written()), RunWrites(emailFrom, emailTo, ps[..completed]))
    {
      completed := 0;
      while completed < |ps|
        invariant completed <= |ps| && Open()
        invariant forall i :: 0 <= i < completed ==> !Aborts(ps[i])
        invariant Written() == Then(old(Written()), RunWrites(emailFrom, emailTo, ps[..completed]))
      {
        var ok := CheckSite(ps[completed]);
        if !ok {
          CompletedAt(ps, completed);
          return;
        }
        RunStep(emailFrom, emailTo, ps, completed);
        ThenAssociative(old(Written()), RunWrites(emailFrom, emailTo, ps[..completed]), ProbeWrites(emailFrom, emailTo, ps[completed]));
        completed := completed + 1;
      }
      CompletedAt(ps, completed);
    }
  }
}
