/** Mail delivery records and the workers that claim them (database/repository.py,
    services/email.py, scripts/send_daily_summary.py). */
module EmailDelivery {
  import opened Wrappers

  datatype Status = Pending | Sending | Sent | Failed

  datatype Email = Email(
    predictionSet: Option<string>, recipient: string, template: string, createdAt: int,
    status: Status, attempts: nat, lastError: Option<string>, messageId: Option<string>, sentAt: Option<int>)

  /** Deliveries by idempotency key. */
  type Log = map<string, Email>

  // ------------------------------------------------------------------
  // What each call does to the log
  // ------------------------------------------------------------------

  function Fresh(predictionSet: Option<string>, recipient: string, template: string, now: int): Email {
    Email(predictionSet, recipient, template, now, Pending, 0, None, None, None)
  }

  function SameIdentity(e: Email, predictionSet: Option<string>, recipient: string, template: string): bool {
    e.predictionSet == predictionSet && e.recipient == recipient && e.template == template
  }

  /** `create_email_log`; `publishable` says whether the prediction set may be mailed. */
  function Register(log: Log, key: string, predictionSet: string, publishable: bool, recipient: string,
                    template: string, now: int)
    : (Log, Result<Email>)
  {
    if key in log then
      if SameIdentity(log[key], Some(predictionSet), recipient, template) then (log, Ok(log[key]))
      else (log, Err("email idempotency key has conflicting identity"))
    else if !publishable then (log, Err("email delivery requires a publishable prediction set"))
    else if exists k :: k in log && SameIdentity(log[k], Some(predictionSet), recipient, template) then
      (log, Err("email delivery exists under another idempotency key"))
    else
      var e := Fresh(Some(predictionSet), recipient, template, now);
      (log[key := e], Ok(e))
  }

  /** `create_operational_email_log`. */
  function RegisterOperational(log: Log, key: string, recipient: string, template: string, now: int)
    : (Log, Result<Email>)
  {
    if key in log then
      if log[key].recipient == recipient && log[key].template == template then (log, Ok(log[key]))
      else (log, Err("email idempotency key has conflicting identity"))
    else
      var e := Fresh(None, recipient, template, now);
      (log[key := e], Ok(e))
  }

  function Claim(log: Log, key: string): (Log, Result<bool>) {
    if key !in log then (log, Err("email must be registered before it can be claimed"))
    else if log[key].status == Pending || log[key].status == Failed then
      (log[key := log[key].(status := Sending, attempts := log[key].attempts + 1, lastError := None)], Ok(true))
    else (log, Ok(false))
  }

  function MarkSent(log: Log, key: string, messageId: string, sentAt: int): (Log, Result<Email>) {
    if key !in log then (log, Err("unknown email idempotency key"))
    else if log[key].status == Sent then
      if log[key].messageId != Some(messageId) then (log, Err("sent email has conflicting provider message id"))
      else (log, Ok(log[key]))
    else if log[key].status != Sending then (log, Err("only a claimed email can be marked sent"))
    else if sentAt < log[key].createdAt then (log, Err("sent_at cannot precede email creation"))
    else if exists k :: k in log && k != key && log[k].messageId == Some(messageId) then
      (log, Err("uq_email_logs_provider_message"))
    else
      var e := log[key].(status := Sent, messageId := Some(messageId), sentAt := Some(sentAt), lastError := None);
      (log[key := e], Ok(e))
  }

  function MarkFailed(log: Log, key: string, error: string): (Log, Result<Email>) {
    if key !in log then (log, Err("unknown email idempotency key"))
    else if log[key].status != Sending then (log, Err("only a claimed email can be marked failed"))
    else if error == "" then (log, Err("failed email requires a sanitized error"))
    else
      var e := log[key].(status := Failed, lastError := Some(error));
      (log[key := e], Ok(e))
  }

  // ------------------------------------------------------------------
  // What a caller may rely on
  // ------------------------------------------------------------------

  /** Every row but that of `key` is as it was, and no other row came or went. */
  ghost predicate OthersKept(before: Log, after: Log, key: string) {
    && (forall k :: k != key ==> (k in after <==> k in before))
    && (forall k :: k != key && k in before ==> after[k] == before[k])
  }

  /** Who is mailed what never changes under a key. */
  predicate SameMail(e: Email, f: Email) {
    && e.predictionSet == f.predictionSet && e.recipient == f.recipient && e.template == f.template
    && e.createdAt == f.createdAt
  }

  predicate Untouched(e: Email) {
    e.status == Pending && e.attempts == 0 && e.lastError.None? && e.messageId.None? && e.sentAt.None?
  }

  predicate Claimable(log: Log, key: string) {
    key in log && (log[key].status == Pending || log[key].status == Failed)
  }

  /** A prediction set is mailed to a recipient in a template under one key at most. */
  ghost predicate OneDeliveryEach(log: Log) {
    forall k, l :: k in log && l in log && k != l && log[k].predictionSet.Some? ==>
      !SameIdentity(log[k], log[l].predictionSet, log[l].recipient, log[l].template)
  }

  /** No two deliveries carry one provider message. */
  ghost predicate OneMessageEach(log: Log) {
    forall k, l :: k in log && l in log && k != l && log[k].messageId.Some? ==> log[k].messageId != log[l].messageId
  }

  /** The table as the repository updates it in place. */
  class EmailTable {
    var rows: map<string, Email>

    constructor ()
      ensures rows == map[]
    {
      rows := map[];
    }

    /** The first registration of a delivery adds an untouched row, a repeat returns that row, and
        one delivery never gets a second key. */
    method CreateEmailLog(key: string, predictionSet: string, publishable: bool, recipient: string, template: string,
                          now: int)
      returns (r: Result<Email>)
      modifies this
      ensures (rows, r) == Register(old(rows), key, predictionSet, publishable, recipient, template, now)
      ensures r.Ok? ==> key in rows && rows[key] == r.value
                        && SameIdentity(r.value, Some(predictionSet), recipient, template)
      ensures r.Ok? && key !in old(rows) ==>
                Untouched(r.value) && r.value.createdAt == now && OthersKept(old(rows), rows, key)
      ensures key !in old(rows) ==>
                (r.Ok? <==> && publishable
                            && forall k :: k in old(rows) ==>
                                 || old(rows)[k].predictionSet != Some(predictionSet)
                                 || old(rows)[k].recipient != recipient || old(rows)[k].template != template)
      ensures r.Err? || key in old(rows) ==> rows == old(rows)
      ensures key in old(rows) ==>
                (r.Ok? <==> SameIdentity(old(rows)[key], Some(predictionSet), recipient, template))
      ensures OneDeliveryEach(old(rows)) ==> OneDeliveryEach(rows)
    {
      if key in rows {
        var existing := rows[key];
        if existing.predictionSet != Some(predictionSet) || existing.recipient != recipient
           || existing.template != template {
          return Err("email idempotency key has conflicting identity");
        }
        return Ok(existing);
      }
      if !publishable { return Err("email delivery requires a publishable prediction set"); }
      if exists k :: k in rows && SameIdentity(rows[k], Some(predictionSet), recipient, template) {
        return Err("email delivery exists under another idempotency key");
      }
      var row := Fresh(Some(predictionSet), recipient, template, now);
      rows := rows[key := row];
      return Ok(row);
    }

    /** Always succeeds for a new key; a repeat under the same recipient and template is the first
        row again, so a retried workflow adds no second delivery. */
    method CreateOperationalEmailLog(key: string, recipient: string, template: string, now: int)
      returns (r: Result<Email>)
      modifies this
      ensures (rows, r) == RegisterOperational(old(rows), key, recipient, template, now)
      ensures r.Ok? ==> key in rows && rows[key] == r.value
                        && r.value.recipient == recipient && r.value.template == template
      ensures key !in old(rows) ==> r.Ok? && Untouched(r.value) && r.value.predictionSet.None?
                                    && r.value.createdAt == now && OthersKept(old(rows), rows, key)
      ensures key in old(rows) ==> rows == old(rows)
      ensures r.Err? <==> key in old(rows)
                          && (old(rows)[key].recipient != recipient || old(rows)[key].template != template)
    {
      if key in rows {
        if rows[key].recipient != recipient || rows[key].template != template {
          return Err("email idempotency key has conflicting identity");
        }
        return Ok(rows[key]);
      }
      var row := Fresh(None, recipient, template, now);
      rows := rows[key := row];
      return Ok(row);
    }

    /** One conditional update decides; only when it touched no row is the reason looked up. */
    method ClaimEmail(key: string) returns (r: Result<bool>)
      modifies this
      ensures (rows, r) == Claim(old(rows), key)
      ensures r == Ok(true) <==> Claimable(old(rows), key)
      ensures r.Err? <==> key !in old(rows)
      ensures r == Ok(true) ==>
                && OthersKept(old(rows), rows, key) && key in rows && SameMail(rows[key], old(rows)[key])
                && rows[key].status == Sending && rows[key].attempts == old(rows)[key].attempts + 1
                && rows[key].lastError.None? && !Claimable(rows, key)
      ensures r != Ok(true) ==> rows == old(rows)
    {
      var touched := 0;
      if key in rows && (rows[key].status == Pending || rows[key].status == Failed) {
        rows := rows[key := rows[key].(status := Sending, attempts := rows[key].attempts + 1, lastError := None)];
        touched := 1;
      }
      if touched == 1 { return Ok(true); }
      if key !in rows { return Err("email must be registered before it can be claimed"); }
      return Ok(false);
    }

    method MarkEmailSent(key: string, messageId: string, sentAt: int) returns (r: Result<Email>)
      modifies this
      ensures (rows, r) == MarkSent(old(rows), key, messageId, sentAt)
      ensures r.Ok? ==>
                && key in old(rows) && key in rows && rows[key] == r.value && OthersKept(old(rows), rows, key)
                && r.value.status == Sent && r.value.messageId == Some(messageId)
                && r.value.attempts == old(rows)[key].attempts && SameMail(r.value, old(rows)[key])
      ensures r.Ok? && old(rows)[key].status != Sent ==>
                && old(rows)[key].status == Sending && old(rows)[key].createdAt <= sentAt
                && r.value.sentAt == Some(sentAt) && r.value.lastError.None?
      ensures r.Ok? <==>
                && key in old(rows)
                && ((old(rows)[key].status == Sent && old(rows)[key].messageId == Some(messageId))
                    || (&& old(rows)[key].status == Sending && old(rows)[key].createdAt <= sentAt
                        && forall k :: k in old(rows) && k != key ==> old(rows)[k].messageId != Some(messageId)))
      ensures r.Err? || old(rows)[key].status == Sent ==> rows == old(rows)
      ensures key in old(rows) && old(rows)[key].status == Sent ==>
                (r.Ok? <==> old(rows)[key].messageId == Some(messageId))
      ensures OneMessageEach(old(rows)) ==> OneMessageEach(rows)
    {
      if key !in rows { return Err("unknown email idempotency key"); }
      var email := rows[key];
      if email.status == Sent {
        if email.messageId != Some(messageId) { return Err("sent email has conflicting provider message id"); }
        return Ok(email);
      }
      if email.status != Sending { return Err("only a claimed email can be marked sent"); }
      if sentAt < email.createdAt { return Err("sent_at cannot precede email creation"); }
      if exists k :: k in rows && k != key && rows[k].messageId == Some(messageId) {
        return Err("uq_email_logs_provider_message");
      }
      email := email.(status := Sent, messageId := Some(messageId), sentAt := Some(sentAt), lastError := None);
      rows := rows[key := email];
      return Ok(email);
    }

    method MarkEmailFailed(key: string, error: string) returns (r: Result<Email>)
      modifies this
      ensures (rows, r) == MarkFailed(old(rows), key, error)
      ensures r.Ok? <==> key in old(rows) && old(rows)[key].status == Sending && error != ""
      ensures r.Ok? ==>
                && key in rows && rows[key] == r.value && OthersKept(old(rows), rows, key) && Claimable(rows, key)
                && r.value.status == Failed && r.value.lastError == Some(error)
                && r.value.attempts == old(rows)[key].attempts && SameMail(r.value, old(rows)[key])
      ensures r.Err? ==> rows == old(rows)
    {
      if key !in rows { return Err("unknown email idempotency key"); }
      var email := rows[key];
      if email.status != Sending { return Err("only a claimed email can be marked failed"); }
      if error == "" { return Err("failed email requires a sanitized error"); }
      email := email.(status := Failed, lastError := Some(error));
      rows := rows[key := email];
      return Ok(email);
    }
  }

  // ------------------------------------------------------------------
  // Workers
  // ------------------------------------------------------------------

  /** The morning mail stops when its claim is refused; the daily summary sends regardless.
      `recorded` says that the summary has a database, and that it never fails the record. */
  datatype Kind = Morning(predictionSet: string) | Summary(recorded: bool)

  /** How far a worker has come.  `Stray` holds no claim but is about to send. */
  datatype Phase =
    | Ready
    | Registered
    | Holding
    | Delivered(messageId: string, at: int)
    | Undelivered(error: string)
    | Stray
    | Finished

  datatype Worker = Worker(kind: Kind, key: string, recipient: string, template: string, phase: Phase)

  /** The log, the workers, and how often each key was claimed, sent under a claim (with the
      provider accepting it), marked failed, and sent without a claim (again with acceptance). */
  datatype State = State(
    log: Log, workers: map<nat, Worker>,
    claims: multiset<string>, sends: multiset<string>, accepted: multiset<string>,
    failures: multiset<string>, strays: multiset<string>, straysAccepted: multiset<string>)

  datatype Action =
    | DoRegister(worker: nat, now: int, publishable: bool)
    | DoClaim(worker: nat)
    | DoSend(worker: nat, delivery: Result<(string, int)>)
    | DoMark(worker: nat)
    | LoseRecord(worker: nat)
    | Crash(worker: nat)

  function Moved(s: State, w: nat, phase: Phase): map<nat, Worker>
    requires w in s.workers
  {
    s.workers[w := s.workers[w].(phase := phase)]
  }

  /** Registration commits; the summary treats a refusal as "no record" and goes on to send. */
  function ActRegister(s: State, w: nat, now: int, publishable: bool): State
    requires w in s.workers && s.workers[w].phase == Ready
  {
    var me := s.workers[w];
    match me.kind
    case Morning(predictionSet) =>
      var (log, r) := Register(s.log, me.key, predictionSet, publishable, me.recipient, me.template, now);
      s.(log := log, workers := Moved(s, w, if r.Ok? then Registered else Finished))
    case Summary(_) =>
      var (log, r) := RegisterOperational(s.log, me.key, me.recipient, me.template, now);
      s.(log := log, workers := Moved(s, w, if r.Ok? then Registered else Stray))
  }

  function ActClaim(s: State, w: nat): State
    requires w in s.workers && s.workers[w].phase == Registered
  {
    var me := s.workers[w];
    var (log, r) := Claim(s.log, me.key);
    if r == Ok(true) then
      s.(log := log, workers := Moved(s, w, Holding), claims := s.claims + multiset{me.key})
    else s.(workers := Moved(s, w, if me.kind.Summary? then Stray else Finished))
  }

  function ActSend(s: State, w: nat, delivery: Result<(string, int)>): State
    requires w in s.workers && (s.workers[w].phase == Holding || s.workers[w].phase == Stray)
  {
    var me := s.workers[w];
    if me.phase == Stray then
      s.(workers := Moved(s, w, Finished), strays := s.strays + multiset{me.key},
         straysAccepted := if delivery.Ok? then s.straysAccepted + multiset{me.key} else s.straysAccepted)
    else match delivery
      case Ok((messageId, at)) =>
        s.(workers := Moved(s, w, Delivered(messageId, at)), sends := s.sends + multiset{me.key},
           accepted := s.accepted + multiset{me.key})
      case Err(error) =>
        s.(workers := Moved(s, w, Undelivered(error)), sends := s.sends + multiset{me.key})
  }

  function ActMark(s: State, w: nat): State
    requires w in s.workers && (s.workers[w].phase.Delivered? || s.workers[w].phase.Undelivered?)
  {
    var me := s.workers[w];
    match me.phase
    case Delivered(messageId, at) =>
      s.(log := MarkSent(s.log, me.key, messageId, at).0, workers := Moved(s, w, Finished))
    case Undelivered(error) =>
      var (log, r) := MarkFailed(s.log, me.key, error);
      s.(log := log, workers := Moved(s, w, Finished),
         failures := if r.Ok? then s.failures + multiset{me.key} else s.failures)
  }

  /** The summary has no database to record in, or the record fails part-way: no record is made of
      the delivery, and it goes on to send. */
  predicate CanLoseRecord(worker: Worker) {
    worker.kind.Summary? && !worker.kind.recorded && (worker.phase == Ready || worker.phase == Registered)
  }

  /** One atomic step; an action that is not possible now changes nothing. */
  function Act(s: State, a: Action): State {
    if a.worker !in s.workers then s
    else
      var phase := s.workers[a.worker].phase;
      match a
      case DoRegister(w, now, publishable) => if phase == Ready then ActRegister(s, w, now, publishable) else s
      case DoClaim(w) => if phase == Registered then ActClaim(s, w) else s
      case DoSend(w, delivery) => if phase == Holding || phase == Stray then ActSend(s, w, delivery) else s
      case DoMark(w) => if phase.Delivered? || phase.Undelivered? then ActMark(s, w) else s
      case LoseRecord(w) => if CanLoseRecord(s.workers[w]) then s.(workers := Moved(s, w, Stray)) else s
      case Crash(w) => s.(workers := Moved(s, w, Finished))
  }

  function Execute(s: State, actions: seq<Action>): State {
    if actions == [] then s else Act(Execute(s, actions[..|actions| - 1]), actions[|actions| - 1])
  }

  /** Nothing registered yet and no worker started. */
  ghost predicate Initial(s: State) {
    && s == State(map[], s.workers, multiset{}, multiset{}, multiset{}, multiset{}, multiset{}, multiset{})
    && forall w :: w in s.workers ==> s.workers[w].phase == Ready
  }

  // ------------------------------------------------------------------
  // What every interleaving keeps
  // ------------------------------------------------------------------

  predicate Holds(worker: Worker) {
    worker.phase == Holding || worker.phase.Delivered? || worker.phase.Undelivered?
  }

  ghost predicate Holder(s: State, key: string, w: nat) {
    w in s.workers && s.workers[w].key == key && Holds(s.workers[w])
  }

  ghost predicate AtMostOneHolder(s: State, key: string) {
    forall v, w :: Holder(s, key, v) && Holder(s, key, w) ==> v == w
  }

  ghost predicate HolderMeansSending(s: State, key: string) {
    forall w :: Holder(s, key, w) ==> key in s.log && s.log[key].status == Sending
  }

  function Outstanding(status: Status): nat {
    if status == Sending || status == Sent then 1 else 0
  }

  /** `attempt_count` counts the claims: one more than the failures marked while a delivery is
      out or done, as many as the failures otherwise. */
  ghost predicate AttemptsCount(s: State, key: string) {
    && (key !in s.log ==> s.claims[key] == 0 && s.failures[key] == 0)
    && (key in s.log ==>
          && s.log[key].attempts == s.claims[key]
          && s.claims[key] == s.failures[key] + Outstanding(s.log[key].status)
          && (s.log[key].status == Pending ==> s.claims[key] == 0))
  }

  /** One send to a claim, and at most one accepted send ever. */
  ghost predicate SendsBounded(s: State, key: string) {
    && s.sends[key] <= s.claims[key]
    && (forall w :: Holder(s, key, w) && s.workers[w].phase == Holding ==> s.sends[key] < s.claims[key])
    && s.accepted[key] <= 1
    && (s.accepted[key] == 1 ==>
          && key in s.log && (s.log[key].status == Sending || s.log[key].status == Sent)
          && forall w :: Holder(s, key, w) ==> s.workers[w].phase.Delivered?)
  }

  ghost predicate Safe(s: State, key: string) {
    AtMostOneHolder(s, key) && HolderMeansSending(s, key) && AttemptsCount(s, key) && SendsBounded(s, key)
  }

  /** Nothing about `key` differs between the two states. */
  ghost predicate SameFor(s: State, t: State, key: string) {
    && (key in t.log <==> key in s.log) && (key in s.log ==> t.log[key] == s.log[key])
    && (forall w :: Holder(t, key, w) ==> Holder(s, key, w) && t.workers[w] == s.workers[w])
    && t.claims[key] == s.claims[key] && t.sends[key] == s.sends[key] && t.accepted[key] == s.accepted[key]
    && t.failures[key] == s.failures[key]
  }

  lemma SameForKeepsSafe(s: State, t: State, key: string)
    requires Safe(s, key) && SameFor(s, t, key)
    ensures Safe(t, key)
  {}

  lemma OtherKeysUntouched(s: State, a: Action, key: string)
    requires a.worker in s.workers && s.workers[a.worker].key != key
    ensures SameFor(s, Act(s, a), key)
  {
    var t := Act(s, a);
    match a
    case DoRegister(w, now, publishable) => OthersRegister(s, w, now, publishable, key);
    case DoClaim(w) => OthersClaim(s, w, key);
    case DoSend(w, delivery) => OthersSend(s, w, delivery, key);
    case DoMark(w) => OthersMark(s, w, key);
    case LoseRecord(w) =>
    case Crash(w) =>
  }

  lemma OthersRegister(s: State, w: nat, now: int, publishable: bool, key: string)
    requires w in s.workers && s.workers[w].key != key
    ensures s.workers[w].phase == Ready ==> SameFor(s, ActRegister(s, w, now, publishable), key)
  {}

  lemma OthersClaim(s: State, w: nat, key: string)
    requires w in s.workers && s.workers[w].key != key
    ensures s.workers[w].phase == Registered ==> SameFor(s, ActClaim(s, w), key)
  {}

  lemma OthersSend(s: State, w: nat, delivery: Result<(string, int)>, key: string)
    requires w in s.workers && s.workers[w].key != key
    ensures s.workers[w].phase == Holding || s.workers[w].phase == Stray ==> SameFor(s, ActSend(s, w, delivery), key)
  {}

  lemma OthersMark(s: State, w: nat, key: string)
    requires w in s.workers && s.workers[w].key != key
    ensures s.workers[w].phase.Delivered? || s.workers[w].phase.Undelivered? ==> SameFor(s, ActMark(s, w), key)
  {}

  /** Registering takes no claim and leaves a registered delivery as it is. */
  lemma RegisterKeepsSafe(s: State, w: nat, now: int, publishable: bool, key: string)
    requires Safe(s, key) && w in s.workers && s.workers[w].key == key && s.workers[w].phase == Ready
    ensures Safe(ActRegister(s, w, now, publishable), key)
  {
    var t := ActRegister(s, w, now, publishable);
    assert forall v :: Holder(t, key, v) ==> v != w && Holder(s, key, v) && t.workers[v] == s.workers[v];
    assert key in s.log ==> t.log[key] == s.log[key];
  }

  lemma ClaimKeepsSafe(s: State, w: nat, key: string)
    requires Safe(s, key) && w in s.workers && s.workers[w].key == key && s.workers[w].phase == Registered
    ensures Safe(ActClaim(s, w), key)
  {
    var t := ActClaim(s, w);
    if Claim(s.log, key).1 == Ok(true) {
      assert forall v :: Holder(t, key, v) ==> v == w by {
        forall v | Holder(t, key, v) && v != w
          ensures false
        {
          assert Holder(s, key, v);
        }
      }
    } else {
      assert forall v :: Holder(t, key, v) ==> v != w && Holder(s, key, v) && t.workers[v] == s.workers[v];
      SameForKeepsSafe(s, t, key);
    }
  }

  lemma SendKeepsSafe(s: State, w: nat, delivery: Result<(string, int)>, key: string)
    requires Safe(s, key) && w in s.workers && s.workers[w].key == key
    requires s.workers[w].phase == Holding || s.workers[w].phase == Stray
    ensures Safe(ActSend(s, w, delivery), key)
  {
    var t := ActSend(s, w, delivery);
    if s.workers[w].phase == Stray {
      assert forall v :: Holder(t, key, v) ==> v != w && Holder(s, key, v) && t.workers[v] == s.workers[v];
      SameForKeepsSafe(s, t, key);
    } else {
      assert Holder(s, key, w);
      assert forall v :: Holder(t, key, v) ==> v == w by {
        forall v | Holder(t, key, v) && v != w
          ensures false
        {
          assert Holder(s, key, v);
        }
      }
    }
  }

  lemma MarkKeepsSafe(s: State, w: nat, key: string)
    requires Safe(s, key) && w in s.workers && s.workers[w].key == key
    requires s.workers[w].phase.Delivered? || s.workers[w].phase.Undelivered?
    ensures Safe(ActMark(s, w), key)
  {
    var t := ActMark(s, w);
    assert Holder(s, key, w);
    assert forall v :: !Holder(t, key, v) by {
      forall v | Holder(t, key, v)
        ensures false
      {
        assert v != w && Holder(s, key, v);
      }
    }
  }

  lemma StepKeepsSafe(s: State, a: Action, key: string)
    requires Safe(s, key)
    ensures Safe(Act(s, a), key)
  {
    if a.worker in s.workers {
      var phase := s.workers[a.worker].phase;
      if s.workers[a.worker].key != key {
        OtherKeysUntouched(s, a, key);
        SameForKeepsSafe(s, Act(s, a), key);
      } else {
        match a
        case DoRegister(w, now, publishable) => if phase == Ready { RegisterKeepsSafe(s, w, now, publishable, key); }
        case DoClaim(w) => if phase == Registered { ClaimKeepsSafe(s, w, key); }
        case DoSend(w, delivery) => if phase == Holding || phase == Stray { SendKeepsSafe(s, w, delivery, key); }
        case DoMark(w) => if phase.Delivered? || phase.Undelivered? { MarkKeepsSafe(s, w, key); }
        case LoseRecord(w) => SameForKeepsSafe(s, Act(s, a), key);
        case Crash(w) => SameForKeepsSafe(s, Act(s, a), key);
      }
    }
  }

  /** Under every interleaving of any workers, crashes included. */
  lemma {:induction false} EveryInterleavingIsSafe(s: State, actions: seq<Action>, key: string)
    requires Initial(s)
    ensures Safe(Execute(s, actions), key)
  {
    if actions == [] {
    } else {
      EveryInterleavingIsSafe(s, actions[..|actions| - 1], key);
      StepKeepsSafe(Execute(s, actions[..|actions| - 1]), actions[|actions| - 1], key);
    }
  }

  ghost predicate SentAs(s: State, key: string, e: Email) {
    key in s.log && s.log[key] == e && e.status == Sent
  }

  lemma RegisterKeepsSent(s: State, w: nat, now: int, publishable: bool, key: string, e: Email)
    requires SentAs(s, key, e) && w in s.workers && s.workers[w].phase == Ready
    ensures SentAs(ActRegister(s, w, now, publishable), key, e)
  {}

  lemma ClaimKeepsSent(s: State, w: nat, key: string, e: Email)
    requires SentAs(s, key, e) && w in s.workers && s.workers[w].phase == Registered
    ensures SentAs(ActClaim(s, w), key, e)
  {}

  lemma MarkKeepsSent(s: State, w: nat, key: string, e: Email)
    requires SentAs(s, key, e) && w in s.workers && (s.workers[w].phase.Delivered? || s.workers[w].phase.Undelivered?)
    ensures SentAs(ActMark(s, w), key, e)
  {}

  lemma StepKeepsSent(s: State, a: Action, key: string)
    requires key in s.log && s.log[key].status == Sent
    ensures SentAs(Act(s, a), key, s.log[key])
  {
    if a.worker in s.workers {
      var phase := s.workers[a.worker].phase;
      match a
      case DoRegister(w, now, publishable) =>
        if phase == Ready { RegisterKeepsSent(s, w, now, publishable, key, s.log[key]); }
      case DoClaim(w) => if phase == Registered { ClaimKeepsSent(s, w, key, s.log[key]); }
      case DoSend(_, _) =>
      case DoMark(w) => if phase.Delivered? || phase.Undelivered? { MarkKeepsSent(s, w, key, s.log[key]); }
      case LoseRecord(_) =>
      case Crash(_) =>
    }
  }

  /** A sent delivery never changes again, whatever happens next. */
  lemma {:induction false} SentIsFinal(s: State, actions: seq<Action>, key: string)
    requires key in s.log && s.log[key].status == Sent
    ensures key in Execute(s, actions).log && Execute(s, actions).log[key] == s.log[key]
  {
    if actions == [] {
    } else {
      SentIsFinal(s, actions[..|actions| - 1], key);
      StepKeepsSent(Execute(s, actions[..|actions| - 1]), actions[|actions| - 1], key);
    }
  }

  // ------------------------------------------------------------------
  // Sends without a claim
  // ------------------------------------------------------------------

  /** Somebody other than `w` works on the same key. */
  ghost predicate Shared(s: State, w: nat) {
    w in s.workers && exists v :: v in s.workers && v != w && s.workers[v].key == s.workers[w].key
  }

  /** A crew in which a daily summary shares its key with another worker. */
  ghost predicate SummarySharesKey(s: State, key: string) {
    exists w :: w in s.workers && s.workers[w].kind.Summary? && s.workers[w].key == key && Shared(s, w)
  }

  /** A crew in which the summary of a key may be without a record. */
  ghost predicate RecordlessSummary(s: State, key: string) {
    exists w :: w in s.workers && s.workers[w].kind.Summary? && !s.workers[w].kind.recorded && s.workers[w].key == key
  }

  /** A schedule in which every summary gets to its record. */
  predicate KeepsRecords(actions: seq<Action>) {
    forall i :: 0 <= i < |actions| ==> !actions[i].LoseRecord?
  }

  ghost predicate Started(s: State, key: string, v: nat) {
    v in s.workers && s.workers[v].key == key && s.workers[v].phase != Ready
  }

  ghost predicate PastClaim(s: State, key: string, v: nat) {
    Started(s, key, v) && s.workers[v].phase != Registered
  }

  /** Nobody is about to send unclaimed: the log knows a key, or a claim of it, only through a
      worker that has left its first phases. */
  ghost predicate NoStrays(s: State, key: string) {
    && s.strays[key] == 0
    && (forall w :: w in s.workers && s.workers[w].key == key ==> s.workers[w].phase != Stray)
    && (key in s.log ==> exists v :: Started(s, key, v))
    && (key in s.log && s.log[key].status != Pending ==> exists v :: PastClaim(s, key, v))
    && (forall w :: w in s.workers && s.workers[w].key == key && s.workers[w].phase == Registered ==> key in s.log)
  }

  ghost predicate SameCrew(s: State, t: State) {
    && s.workers.Keys == t.workers.Keys
    && (forall w :: w in s.workers ==> t.workers[w].key == s.workers[w].key && t.workers[w].kind == s.workers[w].kind)
  }

  /** One worker moved, never back to its first phases. */
  ghost predicate MovesOn(s: State, w: nat, t: State, p: Phase) {
    && w in s.workers && t.workers == s.workers[w := s.workers[w].(phase := p)]
    && (p == s.workers[w].phase || (p != Ready && (p == Registered ==> s.workers[w].phase == Ready)))
  }

  lemma RegisterMoves(s: State, w: nat, now: int, publishable: bool) returns (p: Phase)
    requires w in s.workers && s.workers[w].phase == Ready
    ensures MovesOn(s, w, ActRegister(s, w, now, publishable), p)
  {
    p := ActRegister(s, w, now, publishable).workers[w].phase;
  }

  lemma ClaimMoves(s: State, w: nat) returns (p: Phase)
    requires w in s.workers && s.workers[w].phase == Registered
    ensures MovesOn(s, w, ActClaim(s, w), p)
  {
    p := ActClaim(s, w).workers[w].phase;
  }

  lemma SendMoves(s: State, w: nat, delivery: Result<(string, int)>) returns (p: Phase)
    requires w in s.workers && (s.workers[w].phase == Holding || s.workers[w].phase == Stray)
    ensures MovesOn(s, w, ActSend(s, w, delivery), p)
  {
    p := ActSend(s, w, delivery).workers[w].phase;
  }

  lemma MarkMoves(s: State, w: nat) returns (p: Phase)
    requires w in s.workers && (s.workers[w].phase.Delivered? || s.workers[w].phase.Undelivered?)
    ensures MovesOn(s, w, ActMark(s, w), p)
  {
    p := Finished;
  }

  lemma ActMoves(s: State, a: Action) returns (p: Phase)
    requires a.worker in s.workers
    ensures MovesOn(s, a.worker, Act(s, a), p)
  {
    var phase := s.workers[a.worker].phase;
    p := phase;
    assert s.workers == s.workers[a.worker := s.workers[a.worker].(phase := phase)];
    match a
    case DoRegister(w, now, publishable) => if phase == Ready { p := RegisterMoves(s, w, now, publishable); }
    case DoClaim(w) => if phase == Registered { p := ClaimMoves(s, w); }
    case DoSend(w, delivery) => if phase == Holding || phase == Stray { p := SendMoves(s, w, delivery); }
    case DoMark(w) => if phase.Delivered? || phase.Undelivered? { p := MarkMoves(s, w); }
    case LoseRecord(w) => if CanLoseRecord(s.workers[w]) { p := Stray; }
    case Crash(w) => p := Finished;
  }

  lemma MoveOnWorkers(s: State, t: State, w: nat, p: Phase)
    requires w in s.workers && t.workers == s.workers[w := s.workers[w].(phase := p)]
    requires p == s.workers[w].phase || (p != Ready && (p == Registered ==> s.workers[w].phase == Ready))
    ensures SameCrew(s, t)
    ensures forall key, v :: Started(s, key, v) ==> Started(t, key, v)
    ensures forall key, v :: PastClaim(s, key, v) ==> PastClaim(t, key, v)
    ensures forall v :: v in s.workers && v != w ==> t.workers[v] == s.workers[v]
  {}

  lemma ActOnWorkers(s: State, a: Action, t: State)
    requires t == Act(s, a)
    ensures SameCrew(s, t)
    ensures forall key, v :: Started(s, key, v) ==> Started(t, key, v)
    ensures forall key, v :: PastClaim(s, key, v) ==> PastClaim(t, key, v)
  {
    if a.worker in s.workers {
      var p := ActMoves(s, a);
      MoveOnWorkers(s, t, a.worker, p);
    }
  }

  /** Steps that neither register, claim nor lose a claim of `key`. */
  lemma QuietStep(s: State, t: State, key: string)
    requires NoStrays(s, key) && SameCrew(s, t) && t.strays[key] == 0
    requires forall v :: Started(s, key, v) ==> Started(t, key, v)
    requires forall v :: PastClaim(s, key, v) ==> PastClaim(t, key, v)
    requires key in t.log <==> key in s.log
    requires key in t.log && t.log[key].status != Pending ==> s.log[key].status != Pending
    requires forall w :: w in t.workers && t.workers[w].key == key ==>
               t.workers[w].phase != Stray && (t.workers[w].phase == Registered ==> s.workers[w].phase == Registered)
    ensures NoStrays(t, key)
  {}

  lemma StrayRegister(s: State, w: nat, now: int, publishable: bool, key: string)
    requires NoStrays(s, key) && !SummarySharesKey(s, key)
    requires w in s.workers && s.workers[w].key == key && s.workers[w].phase == Ready
    ensures NoStrays(ActRegister(s, w, now, publishable), key)
  {
    var t := ActRegister(s, w, now, publishable);
    ActOnWorkers(s, DoRegister(w, now, publishable), t);
    assert Started(t, key, w);
    RegisteredOrKnown(s, w, now, publishable, key);
  }

  /** A registration is refused to a lone summary only when somebody else has registered the key. */
  lemma RegisteredOrKnown(s: State, w: nat, now: int, publishable: bool, key: string)
    requires NoStrays(s, key) && !SummarySharesKey(s, key)
    requires w in s.workers && s.workers[w].key == key && s.workers[w].phase == Ready
    ensures var t := ActRegister(s, w, now, publishable);
            && t.workers[w].phase != Stray && t.strays == s.strays
            && (t.workers[w].phase == Registered ==> key in t.log)
            && (key in s.log ==> key in t.log && t.log[key] == s.log[key])
            && (key in t.log && t.log[key].status != Pending ==> key in s.log && s.log[key].status != Pending)
  {
    if key in s.log {
      var v :| Started(s, key, v);
      assert s.workers[w].kind.Summary? ==> Shared(s, w);
    }
  }

  lemma StrayClaim(s: State, w: nat, key: string)
    requires NoStrays(s, key) && !SummarySharesKey(s, key)
    requires w in s.workers && s.workers[w].key == key && s.workers[w].phase == Registered
    ensures NoStrays(ActClaim(s, w), key)
  {
    var t := ActClaim(s, w);
    ActOnWorkers(s, DoClaim(w), t);
    assert Started(t, key, w) && PastClaim(t, key, w);
    if Claim(s.log, key).1 != Ok(true) {
      var v :| PastClaim(s, key, v);
      assert s.workers[w].kind.Summary? ==> Shared(s, w);
    }
  }

  lemma StrayRest(s: State, a: Action, t: State, key: string)
    requires NoStrays(s, key) && a.worker in s.workers && s.workers[a.worker].key == key
    requires (a.DoSend? || a.DoMark? || a.Crash?) && t == Act(s, a)
    ensures NoStrays(t, key)
  {
    ActOnWorkers(s, a, t);
    var p := ActMoves(s, a);
    RestIsQuiet(s, a, t, key);
    QuietStep(s, t, key);
  }

  lemma RestIsQuiet(s: State, a: Action, t: State, key: string)
    requires NoStrays(s, key) && a.worker in s.workers && s.workers[a.worker].key == key
    requires (a.DoSend? || a.DoMark? || a.Crash?) && t == Act(s, a)
    ensures t.strays[key] == 0 && (key in t.log <==> key in s.log)
    ensures key in t.log && t.log[key].status != Pending ==> s.log[key].status != Pending
    ensures t == s || (t.workers[a.worker].phase != Stray && t.workers[a.worker].phase != Registered)
  {
    match a
    case DoSend(_, _) =>
    case DoMark(_) =>
    case Crash(_) =>
  }

  lemma StrayOther(s: State, a: Action, t: State, key: string)
    requires NoStrays(s, key) && a.worker in s.workers && s.workers[a.worker].key != key && t == Act(s, a)
    ensures NoStrays(t, key)
  {
    ActOnWorkers(s, a, t);
    var p := ActMoves(s, a);
    OtherKeysUntouched(s, a, key);
    assert t.strays[key] == s.strays[key];
    QuietStep(s, t, key);
  }

  lemma StrayStep(s: State, a: Action, key: string)
    requires NoStrays(s, key) && !SummarySharesKey(s, key)
    requires !a.LoseRecord? || !RecordlessSummary(s, key)
    ensures NoStrays(Act(s, a), key)
  {
    if a.worker in s.workers {
      if s.workers[a.worker].key != key {
        StrayOther(s, a, Act(s, a), key);
      } else {
        match a
        case DoRegister(w, now, publishable) =>
          if s.workers[w].phase == Ready { StrayRegister(s, w, now, publishable, key); }
        case DoClaim(w) => if s.workers[w].phase == Registered { StrayClaim(s, w, key); }
        case LoseRecord(w) => assert !CanLoseRecord(s.workers[w]);
        case _ => StrayRest(s, a, Act(s, a), key);
      }
    }
  }

  lemma SameCrewShares(s: State, t: State, key: string)
    requires SameCrew(s, t)
    ensures SummarySharesKey(t, key) ==> SummarySharesKey(s, key)
    ensures RecordlessSummary(t, key) ==> RecordlessSummary(s, key)
  {}

  lemma {:induction false} NoStraysEver(s: State, actions: seq<Action>, key: string)
    requires Initial(s) && !SummarySharesKey(s, key)
    requires KeepsRecords(actions) || !RecordlessSummary(s, key)
    ensures NoStrays(Execute(s, actions), key) && SameCrew(s, Execute(s, actions))
  {
    if actions == [] {
    } else {
      var before, a := Execute(s, actions[..|actions| - 1]), actions[|actions| - 1];
      NoStraysEver(s, actions[..|actions| - 1], key);
      SameCrewShares(s, before, key);
      StrayStep(before, a, key);
      ActOnWorkers(before, a, Act(before, a));
    }
  }

  lemma ExecuteMore(s: State, actions: seq<Action>, a: Action)
    ensures Execute(s, actions + [a]) == Act(Execute(s, actions), a)
  {}

  lemma ExecuteThree(s: State, before: seq<Action>, a: Action, b: Action, c: Action) returns (actions: seq<Action>)
    requires KeepsRecords(before) && !a.LoseRecord? && !b.LoseRecord? && !c.LoseRecord?
    ensures Execute(s, actions) == Act(Act(Act(Execute(s, before), a), b), c) && KeepsRecords(actions)
  {
    ExecuteMore(s, before, a);
    ExecuteMore(s, before + [a], b);
    ExecuteMore(s, before + [a] + [b], c);
    actions := before + [a] + [b] + [c];
  }

  /** Worker `v` registers, claims, and its mail is accepted. */
  lemma ClaimedSteps(s: State, v: nat, key: string) returns (actions: seq<Action>)
    requires Initial(s) && v in s.workers && s.workers[v].key == key
    ensures KeepsRecords(actions)
    ensures var t := Execute(s, actions);
            && t.claims[key] == 1 && t.accepted[key] == 1 && t.strays[key] == 0 && t.straysAccepted[key] == 0
            && key in t.log && t.log[key].status == Sending
            && t.workers.Keys == s.workers.Keys && forall w :: w in s.workers && w != v ==> t.workers[w] == s.workers[w]
  {
    var a, b, c := DoRegister(v, 0, true), DoClaim(v), DoSend(v, Ok(("id", 0)));
    actions := ExecuteThree(s, [], a, b, c);
    AcceptedSteps(s, v, key, a, b, c);
  }

  lemma AcceptedSteps(s: State, v: nat, key: string, a: Action, b: Action, c: Action)
    requires Initial(s) && v in s.workers && s.workers[v].key == key
    requires a == DoRegister(v, 0, true) && b == DoClaim(v) && c == DoSend(v, Ok(("id", 0)))
    ensures var t := Act(Act(Act(s, a), b), c);
            && t.claims[key] == 1 && t.accepted[key] == 1 && t.strays[key] == 0 && t.straysAccepted[key] == 0
            && key in t.log && t.log[key].status == Sending
            && t.workers.Keys == s.workers.Keys && forall w :: w in s.workers && w != v ==> t.workers[w] == s.workers[w]
  {
    var s1 := Act(s, a);
    assert s1.workers[v].phase == Registered && key in s1.log && s1.log[key].status == Pending;
    var s2 := Act(s1, b);
    assert s2.workers[v].phase == Holding && s2.log[key].status == Sending && s2.claims[key] == 1;
  }

  /** A summary that finds the delivery out with another worker sends all the same. */
  lemma RefusedSummarySends(s: State, before: seq<Action>, t: State, w: nat, key: string) returns (actions: seq<Action>)
    requires t == Execute(s, before) && KeepsRecords(before)
    requires w in t.workers && t.workers[w].kind.Summary? && t.workers[w].key == key && t.workers[w].phase == Ready
    requires key in t.log && t.log[key].status == Sending
    ensures KeepsRecords(actions)
    ensures var u := Execute(s, actions);
            && u.strays[key] == t.strays[key] + 1 && u.straysAccepted[key] == t.straysAccepted[key] + 1
            && u.claims == t.claims && u.accepted == t.accepted
  {
    var a, b, c := DoRegister(w, 0, true), DoClaim(w), DoSend(w, Ok(("id", 0)));
    actions := ExecuteThree(s, before, a, b, c);
    RefusedSteps(t, w, key, a, b, c);
  }

  lemma RefusedSteps(s: State, w: nat, key: string, a: Action, b: Action, c: Action)
    requires w in s.workers && s.workers[w].kind.Summary? && s.workers[w].key == key && s.workers[w].phase == Ready
    requires key in s.log && s.log[key].status == Sending
    requires a == DoRegister(w, 0, true) && b == DoClaim(w) && c == DoSend(w, Ok(("id", 0)))
    ensures var t := Act(Act(Act(s, a), b), c);
            && t.strays[key] == s.strays[key] + 1 && t.straysAccepted[key] == s.straysAccepted[key] + 1
            && t.claims == s.claims && t.accepted == s.accepted
  {
    var s1 := Act(s, a);
    assert s1.log == s.log && (s1.workers[w].phase == Registered || s1.workers[w].phase == Stray);
    var s2 := Act(s1, b);
    assert s2.workers[w].phase == Stray && s2.workers[w].key == key;
    assert s2.strays == s.strays && s2.straysAccepted == s.straysAccepted;
  }

  /** The run in which a second worker's summary goes out, and is accepted, on top of a claimed and
      accepted mail: two mails on one claim. */
  lemma StrayRun(s: State, w: nat, v: nat, key: string) returns (actions: seq<Action>)
    requires Initial(s) && w in s.workers && v in s.workers && v != w
    requires s.workers[w].kind.Summary? && s.workers[w].key == key && s.workers[v].key == key
    ensures var t := Execute(s, actions);
            t.claims[key] == 1 && t.accepted[key] == 1 && t.strays[key] == 1 && t.straysAccepted[key] == 1
    ensures KeepsRecords(actions)
  {
    var first := ClaimedSteps(s, v, key);
    actions := RefusedSummarySends(s, first, Execute(s, first), w, key);
  }

  /** A lone summary without a record sends unclaimed. */
  lemma RecordlessRun(s: State, w: nat, key: string) returns (actions: seq<Action>)
    requires Initial(s) && w in s.workers && s.workers[w].key == key
    requires s.workers[w].kind.Summary? && !s.workers[w].kind.recorded
    ensures Execute(s, actions).strays[key] == 1 && Execute(s, actions).claims[key] == 0
  {
    var a, b := LoseRecord(w), DoSend(w, Ok(("id", 0)));
    actions := [] + [a] + [b];
    ExecuteMore(s, [], a);
    ExecuteMore(s, [] + [a], b);
    var t := Act(s, a);
    assert t.workers[w].phase == Stray && t.workers[w].key == key;
  }

  /** As long as every summary reaches its record, mail leaves without a claim in some run exactly
      when a summary shares its key with another worker: the claim it lost does not stop it. */
  lemma UnclaimedSendsExactlyWhenShared(s: State, key: string)
    requires Initial(s)
    ensures (exists actions :: KeepsRecords(actions) && Execute(s, actions).strays[key] > 0)
       <==> SummarySharesKey(s, key)
  {
    if SummarySharesKey(s, key) {
      var w :| w in s.workers && s.workers[w].kind.Summary? && s.workers[w].key == key && Shared(s, w);
      var v :| v in s.workers && v != w && s.workers[v].key == s.workers[w].key;
      var actions := StrayRun(s, w, v, key);
      assert Execute(s, actions).strays[key] > 0;
    } else {
      forall actions | KeepsRecords(actions)
        ensures Execute(s, actions).strays[key] == 0
      {
        NoStraysEver(s, actions, key);
      }
    }
  }

  /** With records that may be missing or lost, exactly when the key is shared in that way or the
      summary of the key is one that may be without its record. */
  lemma UnclaimedSendsExactly(s: State, key: string)
    requires Initial(s)
    ensures (exists actions :: Execute(s, actions).strays[key] > 0)
       <==> SummarySharesKey(s, key) || RecordlessSummary(s, key)
  {
    UnclaimedSendsExactlyWhenShared(s, key);
    if RecordlessSummary(s, key) {
      var w :| w in s.workers && s.workers[w].kind.Summary? && !s.workers[w].kind.recorded && s.workers[w].key == key;
      var actions := RecordlessRun(s, w, key);
      assert Execute(s, actions).strays[key] > 0;
    } else if !SummarySharesKey(s, key) {
      forall actions
        ensures Execute(s, actions).strays[key] == 0
      {
        NoStraysEver(s, actions, key);
      }
    }
  }

  // ------------------------------------------------------------------
  // What a worker left alone achieves
  // ------------------------------------------------------------------

  /** The set a worker mails about, if it is about one. */
  function About(kind: Kind): Option<string> {
    match kind case Morning(predictionSet) => Some(predictionSet) case Summary(_) => None
  }

  /** The worker has not started, and nothing stands in the way of its delivery: registered before with its
      own particulars and not out or done, or new under every key. */
  ghost predicate Free(s: State, w: nat) {
    && w in s.workers && s.workers[w].phase == Ready
    && var me := s.workers[w];
    if me.key in s.log then
      && s.log[me.key].predictionSet == About(me.kind) && s.log[me.key].recipient == me.recipient
      && s.log[me.key].template == me.template
      && (s.log[me.key].status == Pending || s.log[me.key].status == Failed)
    else
      forall k :: k in s.log ==>
        s.log[k].predictionSet != About(me.kind) || s.log[k].recipient != me.recipient
        || s.log[k].template != me.template
  }

  /** The row a worker starts from. */
  function Begun(s: State, w: nat, now: int): Email
    requires w in s.workers
  {
    var me := s.workers[w];
    if me.key in s.log then s.log[me.key]
    else Email(About(me.kind), me.recipient, me.template, now, Pending, 0, None, None, None)
  }

  lemma RegistersFree(s: State, w: nat, now: int) returns (a: Action, t: State)
    requires Free(s, w)
    ensures t == Act(s, a)
    ensures var key := s.workers[w].key;
            && t.workers == s.workers[w := s.workers[w].(phase := Registered)]
            && t.log == s.log[key := Begun(s, w, now)]
            && t.accepted == s.accepted && t.claims == s.claims
  {
    a := DoRegister(w, now, true);
    t := Act(s, a);
  }

  lemma ClaimsFree(s: State, w: nat) returns (a: Action, t: State)
    requires w in s.workers && s.workers[w].phase == Registered && s.workers[w].key in s.log
    requires var e := s.log[s.workers[w].key]; e.status == Pending || e.status == Failed
    ensures t == Act(s, a)
    ensures var key := s.workers[w].key;
            && t.workers == s.workers[w := s.workers[w].(phase := Holding)]
            && t.log == s.log[key := s.log[key].(status := Sending, attempts := s.log[key].attempts + 1,
                                                 lastError := None)]
            && t.accepted == s.accepted && t.claims == s.claims + multiset{key}
  {
    a := DoClaim(w);
    t := Act(s, a);
  }

  /** What the provider said is on record: sent with its message, or failed with its error. */
  ghost predicate Recorded(before: Email, after: Email, delivery: Result<(string, int)>) {
    && SameMail(after, before) && after.attempts == before.attempts
    && match delivery
       case Ok((messageId, at)) =>
         && after.status == Sent && after.messageId == Some(messageId) && after.sentAt == Some(at)
         && after.lastError == None
       case Err(error) =>
         && after.status == Failed && after.lastError == Some(error) && after.messageId == before.messageId
         && after.sentAt == before.sentAt
  }

  /** The provider's answer can be put on record: a message of its own, not before the row, or an error. */
  ghost predicate Recordable(log: Log, key: string, delivery: Result<(string, int)>)
    requires key in log
  {
    match delivery
    case Ok((messageId, at)) =>
      && log[key].createdAt <= at && forall k :: k in log && k != key ==> log[k].messageId != Some(messageId)
    case Err(error) => error != ""
  }

  function AfterSend(delivery: Result<(string, int)>): Phase {
    match delivery case Ok((messageId, at)) => Delivered(messageId, at) case Err(error) => Undelivered(error)
  }

  lemma Sends(s: State, w: nat, delivery: Result<(string, int)>) returns (a: Action, t: State)
    requires w in s.workers && s.workers[w].phase == Holding
    ensures t == Act(s, a)
    ensures var key := s.workers[w].key;
            && t.workers == s.workers[w := s.workers[w].(phase := AfterSend(delivery))] && t.log == s.log
            && t.accepted[key] == s.accepted[key] + (if delivery.Ok? then 1 else 0) && t.claims == s.claims
  {
    a := DoSend(w, delivery);
    t := Act(s, a);
  }

  lemma Marks(s: State, w: nat, delivery: Result<(string, int)>) returns (a: Action, t: State)
    requires w in s.workers && s.workers[w].phase == AfterSend(delivery) && s.workers[w].key in s.log
    requires s.log[s.workers[w].key].status == Sending && Recordable(s.log, s.workers[w].key, delivery)
    ensures t == Act(s, a)
    ensures var key := s.workers[w].key;
            && t.workers == s.workers[w := s.workers[w].(phase := Finished)]
            && key in t.log && t.log == s.log[key := t.log[key]] && Recorded(s.log[key], t.log[key], delivery)
            && t.accepted == s.accepted && t.claims == s.claims
  {
    a := DoMark(w);
    t := Act(s, a);
  }

  lemma ExecuteFour(s: State, before: seq<Action>, a: Action, b: Action, c: Action, d: Action)
    returns (actions: seq<Action>)
    ensures Execute(s, actions) == Act(Act(Act(Act(Execute(s, before), a), b), c), d)
  {
    ExecuteMore(s, before, a);
    ExecuteMore(s, before + [a], b);
    ExecuteMore(s, before + [a] + [b], c);
    ExecuteMore(s, before + [a] + [b] + [c], d);
    actions := before + [a] + [b] + [c] + [d];
  }

  /** The row as it stands while the mail is out. */
  function Out(e: Email): Email {
    e.(status := Sending, attempts := e.attempts + 1, lastError := None)
  }

  lemma OverwrittenRow(log: Log, key: string, e: Email)
    ensures log[key := e][key := Out(e)] == log[key := Out(e)]
  {}

  lemma MovedTwice(s: State, w: nat)
    requires w in s.workers
    ensures var registered := s.workers[w].(phase := Registered);
            s.workers[w := registered][w := registered.(phase := Holding)]
            == s.workers[w := s.workers[w].(phase := Holding)]
  {}

  lemma FirstHalf(s: State, w: nat, now: int) returns (a: Action, b: Action, t: State)
    requires Free(s, w)
    ensures t == Act(Act(s, a), b)
    ensures var key := s.workers[w].key;
            && t.workers == s.workers[w := s.workers[w].(phase := Holding)]
            && t.log == s.log[key := Out(Begun(s, w, now))]
            && t.accepted == s.accepted && t.claims == s.claims + multiset{key}
  {
    var registered;
    a, registered := RegistersFree(s, w, now);
    b, t := ClaimsFree(registered, w);
    OverwrittenRow(s.log, s.workers[w].key, Begun(s, w, now));
    MovedTwice(s, w);
  }

  lemma SecondHalf(s: State, w: nat, delivery: Result<(string, int)>) returns (c: Action, d: Action, t: State)
    requires w in s.workers && s.workers[w].phase == Holding && s.workers[w].key in s.log
    requires s.log[s.workers[w].key].status == Sending && Recordable(s.log, s.workers[w].key, delivery)
    ensures t == Act(Act(s, c), d)
    ensures var key := s.workers[w].key;
            && t.workers == s.workers[w := s.workers[w].(phase := Finished)]
            && key in t.log && t.log == s.log[key := t.log[key]] && Recorded(s.log[key], t.log[key], delivery)
            && t.accepted[key] == s.accepted[key] + (if delivery.Ok? then 1 else 0) && t.claims == s.claims
  {
    var sent;
    c, sent := Sends(s, w, delivery);
    d, t := Marks(sent, w, delivery);
  }

  lemma StillRecordable(log: Log, key: string, e: Email, f: Email, delivery: Result<(string, int)>)
    requires Recordable(log[key := e], key, delivery) && f.createdAt == e.createdAt
    ensures Recordable(log[key := f], key, delivery)
  {
    forall k | k in log && k != key
      ensures log[key := e][k] == log[key := f][k] && k in log[key := e]
    {}
  }

  lemma Round(s: State, w: nat, now: int, delivery: Result<(string, int)>)
    returns (a: Action, b: Action, c: Action, d: Action, t: State)
    requires Free(s, w)
    requires Recordable(s.log[s.workers[w].key := Begun(s, w, now)], s.workers[w].key, delivery)
    ensures t == Act(Act(Act(Act(s, a), b), c), d) && Done(s, w, now, delivery, t)
  {
    var holding;
    a, b, holding := FirstHalf(s, w, now);
    StillRecordable(s.log, s.workers[w].key, Begun(s, w, now), Out(Begun(s, w, now)), delivery);
    c, d, t := SecondHalf(holding, w, delivery);
  }

  /** The delivery of worker `w` was claimed once more and the provider's answer is on record. */
  ghost predicate Done(s: State, w: nat, now: int, delivery: Result<(string, int)>, t: State)
    requires w in s.workers
  {
    var key, e := s.workers[w].key, Begun(s, w, now);
    && t.workers == s.workers[w := s.workers[w].(phase := Finished)]
    && key in t.log && t.log == s.log[key := t.log[key]]
    && Recorded(e.(attempts := e.attempts + 1), t.log[key], delivery)
    && t.accepted[key] == s.accepted[key] + (if delivery.Ok? then 1 else 0)
    && t.claims[key] == s.claims[key] + 1
  }

  /** A worker nothing stands in the way of: its delivery is claimed once more and the provider's answer is
      on record. */
  lemma OneRound(s: State, before: seq<Action>, t: State, w: nat, now: int, delivery: Result<(string, int)>)
    returns (actions: seq<Action>, u: State)
    requires t == Execute(s, before) && Free(t, w)
    requires Recordable(t.log[t.workers[w].key := Begun(t, w, now)], t.workers[w].key, delivery)
    ensures u == Execute(s, actions) && Done(t, w, now, delivery, u)
  {
    var a, b, c, d;
    a, b, c, d, u := Round(t, w, now, delivery);
    actions := ExecuteFour(s, before, a, b, c, d);
  }

  /** A first attempt that fails does not lose the mail: the next worker's attempt is the second, and what
      the provider accepts then is on record, once. */
  lemma RetryDelivers(s: State, v: nat, w: nat, now: int, later: int, error: string, messageId: string, at: int)
    returns (actions: seq<Action>)
    requires Initial(s) && v in s.workers && w in s.workers && v != w && s.workers[v] == s.workers[w]
    requires error != "" && now <= at
    ensures var t, key := Execute(s, actions), s.workers[w].key;
            && t.log == map[key := Email(About(s.workers[w].kind), s.workers[w].recipient, s.workers[w].template, now,
                                         Sent, 2, None, Some(messageId), Some(at))]
            && t.accepted[key] == 1 && t.claims[key] == 2
  {
    var me := s.workers[w];
    var first, failed := OneRound(s, [], s, v, now, Err(error));
    assert failed.workers[w] == me && failed.log[me.key].status == Failed;
    var sent;
    actions, sent := OneRound(s, first, failed, w, later, Ok((messageId, at)));
    assert sent.log[me.key] == Email(About(me.kind), me.recipient, me.template, now, Sent, 2, None, Some(messageId),
                                     Some(at));
  }
}
