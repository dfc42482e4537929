/** The `send-reminders` edge function: it picks the appointments of the next
    24 hours, keeps those whose patient has agreed to WhatsApp reminders, and
    sends each such patient one message through the gateway. The reply reports
    how many consented appointments were processed.

    The clock, the credentials, the store's failure and the gateway's answers
    are arguments; the time label of the message text comes from a date
    formatter that is passed in as a function. */
module Reminders {
  import opened Base

  /** The joined `patients` record of an appointment row. */
  datatype ReminderPatient = ReminderPatient(
    firstName: string,
    lastName: string,
    phoneNumber: Option<string>,
    allowWhatsappReminders: Option<bool>)

  /** An appointment row with its patient; start is in minutes since the epoch. */
  datatype ReminderRow = ReminderRow(start: int, status: Option<string>, patient: Option<ReminderPatient>)

  /** `TWILIO_ACCOUNT_SID`, `TWILIO_AUTH_TOKEN`, `TWILIO_PHONE_NUMBER`. */
  datatype Credentials = Credentials(accountSid: Option<string>, authToken: Option<string>, phoneNumber: Option<string>)

  /** The `To`, `From` and `Body` parameters of one gateway request. */
  datatype Message = Message(to: string, from: string, body: string)

  datatype RunOutcome =
    | QueryFailed(msg: string) // status 500, "Error fetching appointments: ..."
    | NoAppointments           // "No appointments in the next 24 hours."
    | NoConsent                // "No appointments with consent to remind."
    | MissingCredentials       // status 500, "Twilio credentials are not set ..."
    | Processed(count: nat, messages: seq<Message>) // "Processed <count> reminders."

  // ---------------------------------------------------------------------------
  // Selection.

  /** The store query: start within [now, now + 24 h], both ends included, and
      a status that is not 'cancelled' (a NULL status fails `neq` in SQL). */
  predicate InWindow(row: ReminderRow, now: int) {
    now <= row.start <= now + 1440 && row.status.Some? && row.status.value != "cancelled"
  }

  function Candidates(rows: seq<ReminderRow>, now: int): (r: seq<ReminderRow>)
    ensures |r| <= |rows|
    ensures forall x :: x in r <==> x in rows && InWindow(x, now)
  {
    if rows == [] then []
    else (if InWindow(rows[0], now) then [rows[0]] else []) + Candidates(rows[1..], now)
  }

  /** The consent test: a patient is joined and `allow_whatsapp_reminders` is
      exactly `true`. */
  predicate HasConsent(row: ReminderRow) {
    row.patient.Some? && row.patient.value.allowWhatsappReminders == Some(true)
  }

  function WithConsent(rows: seq<ReminderRow>): (r: seq<ReminderRow>)
    ensures |r| <= |rows|
    ensures forall x :: x in r <==> x in rows && HasConsent(x)
  {
    if rows == [] then []
    else (if HasConsent(rows[0]) then [rows[0]] else []) + WithConsent(rows[1..])
  }

  /** The consent filter keeps the order of the rows: filtering a concatenation
      is the concatenation of the filtered parts. */
  lemma {:induction false} WithConsentAppend(a: seq<ReminderRow>, b: seq<ReminderRow>)
    ensures WithConsent(a + b) == WithConsent(a) + WithConsent(b)
    decreases |a|
  {
    if a == [] {
      assert a + b == b;
    } else {
      assert (a + b)[1..] == a[1..] + b;
      WithConsentAppend(a[1..], b);
    }
  }

  // ---------------------------------------------------------------------------
  // Message text.

  /** A number without a leading '+' is taken to be Mexican (country code 52). */
  function Recipient(phone: string): (r: string)
    ensures |r| >= 10 && r[..10] == "whatsapp:+"
    ensures |r| >= |phone| && r[|r| - |phone|..] == phone
  {
    "whatsapp:" + (if |phone| > 0 && phone[0] == '+' then phone else "+52" + phone)
  }

  /** Writing the country code out changes nothing: "5512345678" and
      "+525512345678" reach the same recipient. */
  lemma RecipientCountryCode(phone: string)
    requires |phone| == 0 || phone[0] != '+'
    ensures Recipient("+52" + phone) == Recipient(phone)
  {
  }

  /** Two numbers written alike (both with a '+' or both without) reach the same
      recipient only when they are the same number. */
  lemma RecipientInjective(p: string, q: string)
    requires (|p| > 0 && p[0] == '+') <==> (|q| > 0 && q[0] == '+')
    requires Recipient(p) == Recipient(q)
    ensures p == q
  {
    var rp := Recipient(p);
    assert |rp| - |p| == |Recipient(q)| - |q|;
  }

  function MessageBody(firstName: string, timeLabel: string): string {
    "Hola " + firstName + ", te recordamos tu cita en OrthoSmile Dental mañana a las " + timeLabel + ". ¡Te esperamos!"
  }

  /** A consented row gets a message only when its patient has a phone number
      (a missing or empty one is skipped). */
  predicate Reachable(row: ReminderRow) {
    row.patient.Some? && row.patient.value.phoneNumber.Some? && row.patient.value.phoneNumber.value != ""
  }

  function MessageFor(row: ReminderRow, from: string, timeLabel: int -> string): (m: Message)
    requires Reachable(row)
    ensures m.to == Recipient(row.patient.value.phoneNumber.value) && m.from == from
  {
    var p := row.patient.value;
    Message(Recipient(p.phoneNumber.value), from, MessageBody(p.firstName, timeLabel(row.start)))
  }

  /** The messages sent for `rows`, in order, one per reachable row. */
  function Messages(rows: seq<ReminderRow>, from: string, timeLabel: int -> string): (ms: seq<Message>)
    ensures |ms| <= |rows|
  {
    if rows == [] then [] else MessagesOf(rows[0], from, timeLabel) + Messages(rows[1..], from, timeLabel)
  }

  /** The message of one row, if it gets one. */
  function MessagesOf(row: ReminderRow, from: string, timeLabel: int -> string): (ms: seq<Message>)
    ensures |ms| <= 1
  {
    if Reachable(row) then [MessageFor(row, from, timeLabel)] else []
  }

  lemma {:induction false} MessagesAppend(a: seq<ReminderRow>, b: seq<ReminderRow>, from: string, timeLabel: int -> string)
    ensures Messages(a + b, from, timeLabel) == Messages(a, from, timeLabel) + Messages(b, from, timeLabel)
    decreases |a|
  {
    if a == [] {
      assert a + b == b;
    } else {
      assert (a + b)[1..] == a[1..] + b;
      MessagesAppend(a[1..], b, from, timeLabel);
    }
  }

  /** Every message goes to a reachable row's number, and every reachable row
      gets its message: the rows skipped are exactly those without a phone. */
  lemma {:induction false} MessagesReachExactly(rows: seq<ReminderRow>, from: string, timeLabel: int -> string)
    ensures forall m :: m in Messages(rows, from, timeLabel) ==>
              exists x :: x in rows && Reachable(x) && m == MessageFor(x, from, timeLabel)
    ensures forall x :: x in rows && Reachable(x) ==> MessageFor(x, from, timeLabel) in Messages(rows, from, timeLabel)
    ensures |Messages(rows, from, timeLabel)| == |rows| <==> forall x :: x in rows ==> Reachable(x)
    decreases |rows|
  {
    if rows != [] {
      MessagesReachExactly(rows[1..], from, timeLabel);
      var head, rest := MessagesOf(rows[0], from, timeLabel), Messages(rows[1..], from, timeLabel);
      assert Messages(rows, from, timeLabel) == head + rest;
      assert head == if Reachable(rows[0]) then [MessageFor(rows[0], from, timeLabel)] else [];
      forall x | x in rows[1..] ensures x in rows { }
      forall x | x in rows ensures x == rows[0] || x in rows[1..] {
        var i :| 0 <= i < |rows| && rows[i] == x;
        if i > 0 { assert rows[1..][i - 1] == x; }
      }
    }
  }

  // ---------------------------------------------------------------------------
  // The whole run.

  predicate Usable(value: Option<string>) {
    value.Some? && value.value != ""
  }

  predicate HasCredentials(c: Credentials) {
    Usable(c.accountSid) && Usable(c.authToken) && Usable(c.phoneNumber)
  }

  /** The consented candidates, in the order the store returned them. */
  function ToRemind(rows: seq<ReminderRow>, now: int): seq<ReminderRow> {
    WithConsent(Candidates(rows, now))
  }

  /** What one run answers, and which messages it sends. */
  function Run(rows: seq<ReminderRow>, now: int, queryFault: Option<string>, creds: Credentials,
               timeLabel: int -> string): RunOutcome
  {
    if queryFault.Some? then QueryFailed("Error fetching appointments: " + queryFault.value)
    else if Candidates(rows, now) == [] then NoAppointments
    else if ToRemind(rows, now) == [] then NoConsent
    else if !HasCredentials(creds) then MissingCredentials
    else Processed(|ToRemind(rows, now)|, Messages(ToRemind(rows, now), "whatsapp:" + creds.phoneNumber.value, timeLabel))
  }

  /** The order of the checks and what each early answer means. */
  lemma RunOutcomes(rows: seq<ReminderRow>, now: int, queryFault: Option<string>, creds: Credentials,
                    timeLabel: int -> string)
    ensures var o := Run(rows, now, queryFault, creds, timeLabel);
            (o.QueryFailed? <==> queryFault.Some?) &&
            (o == NoAppointments <==> queryFault.None? && forall x :: x in rows ==> !InWindow(x, now)) &&
            (o == NoConsent <==> queryFault.None? && (exists x :: x in rows && InWindow(x, now)) &&
                                 forall x :: x in rows && InWindow(x, now) ==> !HasConsent(x)) &&
            (o == MissingCredentials <==> queryFault.None? && !HasCredentials(creds) &&
                                          exists x :: x in rows && InWindow(x, now) && HasConsent(x)) &&
            (o.Processed? <==> queryFault.None? && HasCredentials(creds) &&
                               exists x :: x in rows && InWindow(x, now) && HasConsent(x))
  {
    var c := Candidates(rows, now);
    if c != [] { assert c[0] in c; }
    var t := ToRemind(rows, now);
    if t != [] { assert t[0] in t; }
  }

  /** The reported count is the number of consented appointments in the window,
      skipped ones included; only consented, reachable patients in the window
      are written to, each once for each of their appointments. */
  lemma ProcessedCountsConsented(rows: seq<ReminderRow>, now: int, queryFault: Option<string>, creds: Credentials,
                                 timeLabel: int -> string)
    requires Run(rows, now, queryFault, creds, timeLabel).Processed?
    ensures var o := Run(rows, now, queryFault, creds, timeLabel);
            o.count == |ToRemind(rows, now)| && 0 < o.count && |o.messages| <= o.count &&
            (forall m :: m in o.messages ==>
               exists x :: x in rows && InWindow(x, now) && HasConsent(x) && Reachable(x) &&
                           m.to == Recipient(x.patient.value.phoneNumber.value)) &&
            (forall x :: x in rows && InWindow(x, now) && HasConsent(x) && Reachable(x) ==>
               exists m :: m in o.messages && m.to == Recipient(x.patient.value.phoneNumber.value))
  {
    var from := "whatsapp:" + creds.phoneNumber.value;
    var t := ToRemind(rows, now);
    MessagesReachExactly(t, from, timeLabel);
    forall x | x in rows && InWindow(x, now) && HasConsent(x) && Reachable(x)
      ensures exists m :: m in Messages(t, from, timeLabel) && m.to == Recipient(x.patient.value.phoneNumber.value)
    {
      assert MessageFor(x, from, timeLabel) in Messages(t, from, timeLabel);
    }
  }

  /** The messages the gateway accepted, in order. Its answers do not reach the
      reply: a rejected message is logged, and the others are still sent. */
  function Delivered(messages: seq<Message>, accepts: Message -> bool): (d: seq<Message>)
    ensures |d| <= |messages|
  {
    if messages == [] then [] else Accepted(messages[0], accepts) + Delivered(messages[1..], accepts)
  }

  function Accepted(m: Message, accepts: Message -> bool): seq<Message> {
    if accepts(m) then [m] else []
  }

  /** Exactly the accepted messages are delivered. */
  lemma {:induction false} DeliveredIff(messages: seq<Message>, accepts: Message -> bool)
    ensures forall m :: m in Delivered(messages, accepts) <==> m in messages && accepts(m)
    decreases |messages|
  {
    if messages != [] {
      DeliveredIff(messages[1..], accepts);
      forall m | m in messages ensures m == messages[0] || m in messages[1..] {
        var i :| 0 <= i < |messages| && messages[i] == m;
        if i > 0 { assert messages[1..][i - 1] == m; }
      }
    }
  }

  lemma {:induction false} DeliveredAppend(a: seq<Message>, b: seq<Message>, accepts: Message -> bool)
    ensures Delivered(a + b, accepts) == Delivered(a, accepts) + Delivered(b, accepts)
    decreases |a|
  {
    if a == [] {
      assert a + b == b;
    } else {
      assert (a + b)[1..] == a[1..] + b;
      DeliveredAppend(a[1..], b, accepts);
    }
  }

  /** One more row adds its message, if any, to the messages and, if accepted,
      to the delivered ones. */
  lemma DispatchStep(rows: seq<ReminderRow>, i: nat, from: string, timeLabel: int -> string, accepts: Message -> bool)
    requires i < |rows|
    ensures var before, ms := Messages(rows[..i], from, timeLabel), MessagesOf(rows[i], from, timeLabel);
            Messages(rows[..i + 1], from, timeLabel) == before + ms &&
            Delivered(before + ms, accepts) == Delivered(before, accepts) + Delivered(ms, accepts)
  {
    var ms := MessagesOf(rows[i], from, timeLabel);
    assert rows[..i + 1] == rows[..i] + [rows[i]];
    MessagesAppend(rows[..i], [rows[i]], from, timeLabel);
    assert Messages([rows[i]], from, timeLabel) == ms by {
      assert [rows[i]][1..] == [];
    }
    DeliveredAppend(Messages(rows[..i], from, timeLabel), ms, accepts);
  }

  /** The `map` over the consented appointments: one request per reachable
      row, in order, each attempted whatever became of the ones before. */
  method Dispatch(toRemind: seq<ReminderRow>, from: string, timeLabel: int -> string, accepts: Message -> bool)
    returns (sent: seq<Message>, delivered: seq<Message>)
    ensures sent == Messages(toRemind, from, timeLabel)
    ensures delivered == Delivered(sent, accepts)
  {
    sent, delivered := [], [];
    var i := 0;
    while i < |toRemind|
      invariant 0 <= i <= |toRemind|
      invariant sent == Messages(toRemind[..i], from, timeLabel)
      invariant delivered == Delivered(sent, accepts)
    {
      var row := toRemind[i];
      DispatchStep(toRemind, i, from, timeLabel, accepts);
      if Reachable(row) {
        var m := MessageFor(row, from, timeLabel);
        sent := sent + [m];
        if accepts(m) {
          delivered := delivered + [m];
        }
      }
      i := i + 1;
    }
    assert toRemind[..i] == toRemind;
  }

  /** The handler: the checks in order, then the sends. `accepts` stands for the
      gateway's answer to each request. */
  method SendReminders(rows: seq<ReminderRow>, now: int, queryFault: Option<string>, creds: Credentials,
                       timeLabel: int -> string, accepts: Message -> bool)
    returns (outcome: RunOutcome, delivered: seq<Message>)
    ensures outcome == Run(rows, now, queryFault, creds, timeLabel)
    ensures outcome.Processed? ==> delivered == Delivered(outcome.messages, accepts)
    ensures !outcome.Processed? ==> delivered == []
  {
    if queryFault.Some? {
      return QueryFailed("Error fetching appointments: " + queryFault.value), [];
    }
    var all := Candidates(rows, now);
    if |all| == 0 {
      return NoAppointments, [];
    }
    var toRemind := WithConsent(all);
    if |toRemind| == 0 {
      return NoConsent, [];
    }
    if !HasCredentials(creds) {
      return MissingCredentials, [];
    }
    var sent;
    sent, delivered := Dispatch(toRemind, "whatsapp:" + creds.phoneNumber.value, timeLabel, accepts);
    outcome := Processed(|toRemind|, sent);
  }
}
