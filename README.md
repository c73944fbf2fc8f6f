# site-checker, modelled in Dafny

The site checker probes a fixed list of sites once per invocation. For each site it
issues an HTTP request and classifies the result: a response with a status code of at
most 200 is a success, anything else is a failure. A failure produces an alert. The
alert is mailed through SMTP and then recorded in the `message_sent` table. Every
finished check appends one row to the `status` table.

The model has four modules:

- `PyFormat` (pyformat.dfy) holds Python's `None` as `Option`. It also has the text
  that `'{}'.format(x)` gives for an int, `None` or a string. A decimal reader proves
  that printing a status code loses nothing.
- `Classify` (classify.dfy) holds a request's outcome. A `requests` exception is a
  `TransportFailure` of kind SSL, connection or other. The module also models the order
  of the loop's `except` clauses, where the first clause whose class catches the
  exception wins. It also has the success threshold, the alert subject and body, and
  the two table rows.
- `Run` (run.dfy) describes a whole run as functions of its probes. It gives the
  `status` rows, the mails sent, the `message_sent` rows, the order of these side
  effects, and where the run stops. Each `Probe` carries what the outside world answered:
  the request's outcome, the clock reading, and whether the SMTP server accepted the
  alert.
- `Checker` (app.dfy) holds the class `App` with the two tables, each with an existence
  flag and its rows. It also holds the outbox of mails handed to SMTP and a ghost trace
  of side effects. Its methods follow `__init__`, `open_db_connections`, `send_status`
  and `send_message`. `CheckSites` is the `for site in self.test_sites` loop. It is
  proved to write exactly `Run.RunWrites` of the probes it completed.

An SMTP failure raises an exception that is not a `RequestException`. It therefore
escapes `send_status` and the `except` clauses of the site loop, and ends the run. The
failing probe gets no `status` row and no `message_sent` row, and the remaining sites
are not probed: a refused alert ends the run. `Run.Aborts` and `Run.Completed`
capture this.

## Model

| member | source | states |
|---|---|---|
| PyFormat.ParseIntStr | check.py:88 | the decimal text `'{}'.format` prints for a status code reads back as exactly that code |
| PyFormat.OptIntStrInjective | check.py:88 | different status codes, or a code and `None`, print as different text |
| PyFormat.NatDigits | check.py:88 | the printed digits are non-empty decimal digits with no leading zero |
| Classify.FirstCatching | check.py:51-61 | the chosen `except` clause catches the exception, and no earlier clause does |
| Classify.FailureMessage | check.py:51-61 | an SSL error gives "SSL error", a connection error "failed to connect", any other request exception "other failure: " followed by its text |
| Classify.AlertBodyDeterminesStatus | check.py:88 | two alert bodies for the same site and message are equal only when they report the same status |
| Classify.StatusRowFor | check.py:84-95 | success holds exactly when the code is present and at most 200; a failed row stores the alert body as its message, a successful one the message unchanged; the time, name, url, code and elapsed pass through |
| Run.Observe | check.py:39-61 | a response passes its own code and elapsed time with no message; an exception passes no code, no elapsed time and the message "SSL error", "failed to connect" or "other failure: " followed by its text, by its kind |
| Run.RowOfOutcome | check.py:43-61 | a response's row carries its code and elapsed time; an exception's row has no code and stores the alert body around the caught clause's message, for each of the three kinds |
| Run.Completed | check.py:37-61 | the run finishes every probe before the first refused alert and stops at that one |
| Run.Rows | check.py:37-61 | a run writes one `status` row per finished probe |
| Run.RowsAt | check.py:37-61 | the i-th `status` row is the row of the i-th probe |
| Run.Alerted | check.py:84-89 | at most one alert per probe, and every alerted probe fails |
| Run.AlertedSingle | check.py:84-89 | a single probe is alerted exactly when it fails |
| Run.AlertedAppend | check.py:37-61 | the alerts of two stretches of probes are those of the first followed by those of the second, so the alerted probes are the failing probes in the order probed |
| Run.AlertedCount | check.py:84-89 | the number of alerts equals the number of failing probes |
| Run.AlertedMultiplicity | check.py:84-89 | every failing probe is alerted as often as it occurs, and a succeeding one never |
| Run.AlertedAllFailing | check.py:84-89 | when every probe fails, every probe is alerted, in order |
| Run.AlertsOfAlerted | check.py:87-89 | the j-th mail and the j-th `message_sent` row carry the subject and body of the j-th alerted probe, with the configured addresses |
| Run.RunStep | check.py:37-61 | the writes of a run prefix grow by exactly the writes of the next probe |
| Run.RunWritesAppend | check.py:37-61 | the writes of two runs in sequence are the writes of the first followed by those of the second |
| Run.NoSuppression | check.py:168 | a site that is down on two runs, at any two clock readings and with any two failures, and whose two alerts are accepted, makes the loop write two rows, two mails with the same subject and two `message_sent` rows, so no alert is suppressed |
| Run.RunCounts | check.py:37-61 | a run without a refused alert checks every site, adds one `status` row per site, and adds one mail and one `message_sent` row per failing site |
| Run.CheckedDatesMonotone | check.py:93 | with a clock that never goes back, `checked_date` never decreases along the rows |
| Run.CompletedAll | check.py:37-61 | the run checks every site exactly when no alert is refused |
| Run.CompletedAt | check.py:37-61 | the index of the first refused alert is where the run stops |
| Run.RowOfFacts | check.py:84-95 | each row keeps the row invariant: success follows from the code, elapsed is present exactly with the code, and a failure stores the alert body |
| Run.FailsExactly | check.py:84 | a check fails exactly when the request raised or the code is above 200 |
| Run.ScenarioNotFound | check.py:84-95 | a 404 gives one failed row holding the alert body, one alert naming the site, and one `message_sent` row recording it |
| Run.ScenarioSsl | check.py:51-53 | a TLS failure gives a row with no code, an "SSL error" alert, and one `message_sent` row recording it |
| Run.ScenarioOk | check.py:84-95 | a 200 gives one successful row, no alert and no `message_sent` row |
| Classify.SslErrorCaughtFirst | check.py:51-57 | an SSL error is also a connection error; only the clause order makes it report "SSL error" |
| Classify.SuccessThreshold | check.py:84 | exactly the codes up to and including 200 succeed, and a missing code fails |
| Classify.IsFailure | check.py:84 | definition: a check fails when there is no status code or the code is above 200 |
| Classify.HandlerMessage | check.py:52-60 | definition: the message each `except` clause assigns |
| Classify.AlertSubject | check.py:87 | definition: the alert subject "site: <name> is down!" |
| Classify.AlertBody | check.py:88 | definition: the alert body with name, url, formatted status code and formatted message |
| Run.Mails | check.py:175-184 | definition: the mails of a run, one per failing probe, in the order probed |
| Run.SentRows | check.py:188-200 | definition: the `message_sent` rows of a run, one per failing probe, in the order probed |
| Run.Effects | check.py:37-61 | definition: the side effects of a run in order; for a failing probe the mail, then its `message_sent` row, then its `status` row |
| Run.Aborts | check.py:175-184 | definition: a probe ends the run when it fails and the SMTP server refuses its alert, since that exception escapes `send_status` and every `except` clause |
| Run.RowOf | check.py:84-95 | definition: the `status` row of a probe, built from its observed code, elapsed time and message at its clock reading |
| Run.AlertOf | check.py:170-183 | definition: the mail of a failing probe, from and to the configured addresses, with its alert subject and body |
| Run.SentRowOf | check.py:198 | definition: the `message_sent` row of a failing probe: clock reading, to, from, subject and body |
| PyFormat.IntStr | check.py:88 | definition: Python's `str()` of an int, a minus sign for negatives followed by its decimal digits |
| PyFormat.OptIntStr | check.py:88 | definition: `'{}'.format` of an int or `None`, "None" for `None` |
| PyFormat.OptStr | check.py:88 | definition: `'{}'.format` of a string or `None`, "None" for `None` |
| Checker.App.constructor | check.py:11-35 | the addresses are configured, both tables exist afterwards, existing rows are kept, and nothing has been mailed |
| Checker.App.OpenDbConnections | check.py:122-160 | creates each missing table empty, keeps every existing row, and changes nothing when both tables exist |
| Checker.App.SendMessage | check.py:163-203 | when the SMTP server accepts, the mail is sent first and then exactly one `message_sent` row is appended; when it refuses, nothing changes |
| Checker.App.SendStatus | check.py:79-119 | a failure sends one alert before the `status` row is inserted; a success sends nothing; a refused alert leaves no row; the row is `StatusRowFor` of the arguments |
| Checker.App.CheckSite | check.py:38-61 | one loop pass writes exactly the probe's writes, or nothing when its alert is refused |
| Checker.App.CheckSites | check.py:37-61 | the loop stops after `Completed` probes, and the tables, outbox and effect order become the old ones followed by `RunWrites` of those probes |

## Left out

- The HTTP request (`requests.get`) is not modelled. Its outcome is an input, the `outcome` of each `Probe`.
- The SMTP session is not modelled: connection, EHLO, STARTTLS, login, MIME encoding and quit. Whether the server accepted the mail is an input, `mailDelivered`. A session that fails after `sendmail` has accepted the mail is not distinguished from one that fails before it.
- The clock is not modelled. Each probe carries one reading, `at`, used for both `checked_date` and `sent_date`. In the code these are two `int(time.time())` calls and may differ by a second.
- `r.elapsed.total_seconds()` is a float; it is modelled as a `real`.
- Reading `config.ini` is left out. The addresses are constructor parameters; the SMTP host and credentials are not modelled.
- The `test_sites` constant is not modelled. The sites are the names and urls of the probes passed to `CheckSites`.
- SQLite mechanics are left out: cursors, commit, SQL text and column types. A table is modelled as a sequence of rows. A failed database connection (check.py:123-126) and the resulting `None` connection are left out.
- `__del__` (check.py:65-76) only commits, closes the connection and prints, so it is not modelled.
- `print` output is left out.
- A failed INSERT or commit (check.py:116-117, 200-201) is left out: every table write succeeds in the model. In the code a `sqlite3.Error` there ends the run, and at line 200 it leaves a mail already delivered with no `message_sent` row.
- `send_status` declares every parameter with a default of `None` (check.py:79). Every call passes all five, so the defaults are not modelled.
- The charting script plot.py is not part of this model.
