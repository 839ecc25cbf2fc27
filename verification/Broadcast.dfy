/** WebSocket fan-out: lazy serialisation, refresh on admission and the client limit
    (src/managers/server.rs).

    The mapper publishes display payloads; one task encodes them; the accept loop admits
    clients; each client sends the latest text it has not sent. Everything interleaves,
    one step at a time. `history`, `texts`, `gone` and the clients' `floor` record what
    happened; no step reads more of them than the newest entry. */
module Broadcast {
  import opened Floats
  import P = Payloads

  /** What the mapper publishes: every channel's levels and the MIDI state. */
  type Payload = P.Display
  type Text = string

  datatype Encoding = Encoded(text: Text) | Refused

  /** The JSON encoder is arbitrary and may refuse a payload. */
  type Encoder = Payload -> Encoding

  const EMPTY: Text := "{\"channels\":[]}"

  predicate AllFinite(payload: Payload) {
    forall ch :: 0 <= ch < |payload.channels| ==>
      && payload.channels[ch].peak.IsFinite()
      && forall b :: 0 <= b < |payload.channels[ch].bins| ==> payload.channels[ch].bins[b].IsFinite()
  }

  /** `serialise_display_payload`: non-finite payloads never reach the encoder. */
  function Serialise(enc: Encoder, payload: Payload): Encoding {
    if AllFinite(payload) then enc(payload) else Refused
  }

  // ---------- State ----------

  /** A published text. `first` is the payload it was encoded from (-1 for the fallback); `asOf`
      is the newest payload a refresh found to have this very encoding. */
  datatype Entry = Entry(text: Text, first: int, asOf: int)

  datatype Sent = Sent(version: nat, text: Text)

  /** `floor` is the payload the refresh before admission read, or -1 if it read none it could encode. */
  datatype Client = Client(floor: int, seen: nat, sent: seq<Sent>)

  datatype Acceptor = Listening | Refreshing | Admitting(floor: int)

  datatype Serialiser = Waiting | Woken(refresh: bool) | Stopped

  datatype State = State(history: seq<Payload>, seen: nat, serialiser: Serialiser, requested: bool,
                         texts: seq<Entry>, acceptor: Acceptor, free: nat, live: seq<Client>, gone: seq<Client>)

  datatype Event =
    | Publish(payload: Payload)
    | Wake(refresh: bool)
    | Serve
    | Stop                      // the display sender is gone
    | Accept
    | RefreshFailed             // the serialiser is gone, so the refresh returns at once
    | Admit
    | Send(i: nat)              // client `i` sends the newest text
    | Leave(i: nat)             // client `i` ends, for any reason

  function Initial(enc: Encoder, max: nat, payload: Payload): State {
    var entry := match Serialise(enc, payload)
                 case Encoded(text) => Entry(text, 0, 0)
                 case Refused => Entry(EMPTY, -1, -1);
    State([payload], 0, Waiting, false, [entry], Listening, max, [], [])
  }

  function Version(s: State): int {
    |s.history| - 1
  }

  /** `has_connected_clients`: the server keeps one receiver for cloning. */
  predicate HasConnectedClients(receiverCount: nat) {
    receiverCount > 1
  }

  predicate Enabled(s: State, e: Event) {
    match e
    case Publish(payload) => true
    case Wake(refresh) => s.serialiser.Waiting? && if refresh then s.requested else s.seen != Version(s)
    case Serve => s.serialiser.Woken? && |s.history| > 0 && |s.texts| > 0
    case Stop => s.serialiser.Waiting?
    case Accept => s.acceptor.Listening?
    case RefreshFailed => s.acceptor.Refreshing? && s.serialiser.Stopped?
    case Admit => s.acceptor.Admitting?
    case Send(i) => i < |s.live| && |s.texts| > 0 && (|s.live[i].sent| == 0 || s.live[i].seen != |s.texts| - 1)
    case Leave(i) => i < |s.live|
  }

  function Apply(enc: Encoder, s: State, e: Event): State
    requires Enabled(s, e)
  {
    match e
    case Publish(payload) => s.(history := s.history + [payload])
    case Wake(refresh) => s.(serialiser := Woken(refresh), requested := s.requested && !refresh)
    case Serve => Served(enc, s)
    case Stop => s.(serialiser := Stopped)
    case Accept => if s.free == 0 then s else s.(free := s.free - 1, acceptor := Refreshing, requested := true)
    case RefreshFailed => s.(acceptor := Admitting(-1))
    case Admit => s.(acceptor := Listening, live := s.live + [Client(s.acceptor.floor, 0, [])])
    case Send(i) => s.(live := s.live[i := Sending(s.live[i], |s.texts| - 1, s.texts[|s.texts| - 1].text)])
    case Leave(i) => s.(live := s.live[..i] + s.live[i + 1..], gone := s.gone + [s.live[i]], free := s.free + 1)
  }

  function Sending(c: Client, version: nat, text: Text): Client {
    c.(seen := version, sent := c.sent + [Sent(version, text)])
  }

  /** One pass of the serialiser after it woke up. */
  function Served(enc: Encoder, s: State): State
    requires Enabled(s, Serve)
  {
    var done := s.(serialiser := Waiting, seen := Version(s));
    if !s.serialiser.refresh && !HasConnectedClients(1 + |s.live|) then done
    else
      var encoding := Serialise(enc, s.history[Version(s)]);
      var published := if encoding.Encoded? then done.(texts := Publishing(s, encoding.text)) else done;
      if s.serialiser.refresh then published.(acceptor := Admitting(if encoding.Encoded? then Version(s) else -1))
      else published
  }

  /** A refresh that finds the text unchanged sends nothing. */
  function Publishing(s: State, text: Text): seq<Entry>
    requires Enabled(s, Serve)
  {
    var last := |s.texts| - 1;
    if s.serialiser.refresh && s.texts[last].text == text then s.texts[last := s.texts[last].(asOf := Version(s))]
    else s.texts + [Entry(text, Version(s), Version(s))]
  }

  predicate ValidRun(enc: Encoder, s: State, events: seq<Event>)
    decreases |events|
  {
    |events| == 0 || (Enabled(s, events[0]) && ValidRun(enc, Apply(enc, s, events[0]), events[1..]))
  }

  function Final(enc: Encoder, s: State, events: seq<Event>): State
    requires ValidRun(enc, s, events)
    decreases |events|
  {
    if |events| == 0 then s else Final(enc, Apply(enc, s, events[0]), events[1..])
  }

  // ---------- Invariant ----------

  /** `text` is the encoding of payload `i`, which is all finite; or it is the fallback. */
  predicate EncodingOf(enc: Encoder, history: seq<Payload>, text: Text, i: int) {
    if i == -1 then text == EMPTY
    else 0 <= i < |history| && AllFinite(history[i]) && enc(history[i]) == Encoded(text)
  }

  predicate EntryOk(enc: Encoder, history: seq<Payload>, entry: Entry) {
    && entry.first <= entry.asOf < |history|
    && EncodingOf(enc, history, entry.text, entry.first) && EncodingOf(enc, history, entry.text, entry.asOf)
  }

  predicate TextsOk(enc: Encoder, history: seq<Payload>, texts: seq<Entry>) {
    && |texts| > 0 && |history| > 0
    && (forall v :: 0 <= v < |texts| ==> EntryOk(enc, history, texts[v]))
    && forall u, v :: 0 <= u < v < |texts| ==> texts[u].asOf <= texts[v].first
  }

  /** What a client was sent: strictly newer versions each time, and each version's own text. */
  predicate SentOk(texts: seq<Entry>, sent: seq<Sent>) {
    && (forall k :: 0 <= k < |sent| ==>
          sent[k].version < |texts| && sent[k].text == texts[sent[k].version].text)
    && forall j, k :: 0 <= j < k < |sent| ==> sent[j].version < sent[k].version
  }

  /** The first text sent is at least as new as what the refresh read. */
  predicate ClientOk(texts: seq<Entry>, c: Client) {
    && |texts| > 0
    && SentOk(texts, c.sent)
    && (|c.sent| > 0 ==> c.sent[|c.sent| - 1].version == c.seen)
    && c.floor <= texts[if |c.sent| > 0 then c.sent[0].version else |texts| - 1].asOf
  }

  predicate ClientsOk(s: State) {
    && |s.texts| > 0
    && (forall i :: 0 <= i < |s.live| ==> ClientOk(s.texts, s.live[i]))
    && (forall i :: 0 <= i < |s.gone| ==> ClientOk(s.texts, s.gone[i]))
    && (s.acceptor.Admitting? ==> s.acceptor.floor <= s.texts[|s.texts| - 1].asOf)
  }

  /** Each slot is free, held by the accept loop or held by a live client. */
  predicate SlotsOk(s: State, max: nat) {
    s.free + |s.live| + (if s.acceptor.Listening? then 0 else 1) == max
  }

  /** A refresh under way is queued, being served, or its serialiser is gone. */
  predicate RefreshOk(s: State) {
    && (s.acceptor.Refreshing? ==> s.requested || s.serialiser == Woken(true) || s.serialiser.Stopped?)
    && (s.requested && !s.serialiser.Stopped? ==> s.acceptor.Refreshing? && s.serialiser != Woken(true))
    && (s.serialiser == Woken(true) ==> s.acceptor.Refreshing?)
  }

  predicate Inv(enc: Encoder, max: nat, s: State) {
    TextsOk(enc, s.history, s.texts) && ClientsOk(s) && SlotsOk(s, max) && RefreshOk(s)
  }

  // ---------- Preservation ----------

  /** Later texts, or a later `asOf`, leave what a client was sent in order. */
  predicate Grows(before: seq<Entry>, after: seq<Entry>) {
    && 0 < |before| <= |after|
    && (forall v :: 0 <= v < |before| ==> before[v].text == after[v].text && before[v].asOf <= after[v].asOf)
    && before[|before| - 1].asOf <= after[|after| - 1].asOf
  }

  lemma ClientGrows(before: seq<Entry>, after: seq<Entry>, c: Client)
    requires Grows(before, after) && ClientOk(before, c)
    ensures ClientOk(after, c)
  {
  }

  lemma ClientsGrow(s: State, t: State)
    requires ClientsOk(s) && Grows(s.texts, t.texts) && t.live == s.live && t.gone == s.gone
    requires t.acceptor.Admitting? ==> t.acceptor == s.acceptor || t.acceptor.floor <= t.texts[|t.texts| - 1].asOf
    ensures ClientsOk(t)
  {
    forall i | 0 <= i < |s.live| ensures ClientOk(t.texts, s.live[i]) {
      ClientGrows(s.texts, t.texts, s.live[i]);
    }
    forall i | 0 <= i < |s.gone| ensures ClientOk(t.texts, s.gone[i]) {
      ClientGrows(s.texts, t.texts, s.gone[i]);
    }
  }

  lemma PublishKeepsTexts(enc: Encoder, s: State, payload: Payload)
    requires TextsOk(enc, s.history, s.texts)
    ensures TextsOk(enc, s.history + [payload], s.texts)
  {
    forall v | 0 <= v < |s.texts| ensures EntryOk(enc, s.history + [payload], s.texts[v]) {
    }
  }

  lemma NewTextKeepsTexts(enc: Encoder, history: seq<Payload>, texts: seq<Entry>, entry: Entry)
    requires TextsOk(enc, history, texts) && EntryOk(enc, history, entry) && entry.first == |history| - 1
    ensures TextsOk(enc, history, texts + [entry]) && Grows(texts, texts + [entry])
  {
    assert forall v :: 0 <= v < |texts| ==> EntryOk(enc, history, texts[v]);
  }

  lemma ConfirmedTextKeepsTexts(enc: Encoder, history: seq<Payload>, texts: seq<Entry>, entry: Entry)
    requires TextsOk(enc, history, texts) && EntryOk(enc, history, entry)
    requires entry == texts[|texts| - 1].(asOf := |history| - 1)
    ensures TextsOk(enc, history, texts[|texts| - 1 := entry]) && Grows(texts, texts[|texts| - 1 := entry])
  {
    assert forall v :: 0 <= v < |texts| ==> EntryOk(enc, history, texts[v]);
  }

  lemma PublishingKeepsTexts(enc: Encoder, s: State, text: Text)
    requires TextsOk(enc, s.history, s.texts) && Enabled(s, Serve)
    requires Serialise(enc, s.history[Version(s)]) == Encoded(text)
    ensures TextsOk(enc, s.history, Publishing(s, text)) && Grows(s.texts, Publishing(s, text))
    ensures Publishing(s, text)[|Publishing(s, text)| - 1].asOf == Version(s)
  {
    var last := s.texts[|s.texts| - 1];
    assert EncodingOf(enc, s.history, text, Version(s)) && EntryOk(enc, s.history, last);
    if s.serialiser.refresh && last.text == text {
      ConfirmedTextKeepsTexts(enc, s.history, s.texts, last.(asOf := Version(s)));
    } else {
      NewTextKeepsTexts(enc, s.history, s.texts, Entry(text, Version(s), Version(s)));
    }
  }

  /** What one pass of the serialiser does to the texts: it publishes or it leaves them. */
  lemma ServedTexts(enc: Encoder, s: State)
    requires Enabled(s, Serve)
    ensures var encoding := Serialise(enc, s.history[Version(s)]);
            var t := Served(enc, s);
            && t.texts == (if encoding.Encoded? && (s.serialiser.refresh || |s.live| > 0)
                           then Publishing(s, encoding.text) else s.texts)
            && t.acceptor == (if s.serialiser.refresh
                              then Admitting(if encoding.Encoded? then Version(s) else -1) else s.acceptor)
            && t.history == s.history && t.live == s.live && t.gone == s.gone && t.free == s.free
  {
  }

  lemma ServeKeepsTexts(enc: Encoder, s: State)
    requires TextsOk(enc, s.history, s.texts) && Enabled(s, Serve)
    ensures TextsOk(enc, s.history, Served(enc, s).texts) && Grows(s.texts, Served(enc, s).texts)
    ensures Served(enc, s).acceptor == s.acceptor
            || (Served(enc, s).acceptor.Admitting? &&
                Served(enc, s).acceptor.floor <= Served(enc, s).texts[|Served(enc, s).texts| - 1].asOf)
  {
    ServedTexts(enc, s);
    var encoding := Serialise(enc, s.history[Version(s)]);
    assert EntryOk(enc, s.history, s.texts[|s.texts| - 1]);
    if encoding.Encoded? && (s.serialiser.refresh || |s.live| > 0) {
      PublishingKeepsTexts(enc, s, encoding.text);
    }
  }

  lemma ServeKeepsInv(enc: Encoder, max: nat, s: State)
    requires Inv(enc, max, s) && Enabled(s, Serve)
    ensures Inv(enc, max, Served(enc, s))
  {
    ServeKeepsTexts(enc, s);
    ClientsGrow(s, Served(enc, s));
  }

  lemma SendKeepsClients(s: State, i: nat)
    requires ClientsOk(s) && Enabled(s, Send(i))
    ensures ClientsOk(s.(live := s.live[i := Sending(s.live[i], |s.texts| - 1, s.texts[|s.texts| - 1].text)]))
  {
    var c := s.live[i];
    assert ClientOk(s.texts, c);
    var d := Sending(c, |s.texts| - 1, s.texts[|s.texts| - 1].text);
    assert ClientOk(s.texts, d);
  }

  lemma LeaveKeepsClients(s: State, i: nat)
    requires ClientsOk(s) && i < |s.live|
    ensures ClientsOk(s.(live := s.live[..i] + s.live[i + 1..], gone := s.gone + [s.live[i]], free := s.free + 1))
  {
  }

  lemma AdmitKeepsClients(s: State)
    requires ClientsOk(s) && s.acceptor.Admitting?
    ensures ClientsOk(s.(acceptor := Listening, live := s.live + [Client(s.acceptor.floor, 0, [])]))
  {
    assert ClientOk(s.texts, Client(s.acceptor.floor, 0, []));
  }

  lemma StepKeepsInv(enc: Encoder, max: nat, s: State, e: Event)
    requires Inv(enc, max, s) && Enabled(s, e)
    ensures Inv(enc, max, Apply(enc, s, e))
  {
    match e
    case Publish(payload) => PublishKeepsTexts(enc, s, payload);
    case Serve => ServeKeepsInv(enc, max, s);
    case Send(i) => SendKeepsClients(s, i);
    case Leave(i) => LeaveKeepsClients(s, i);
    case Admit => AdmitKeepsClients(s);
    case RefreshFailed => assert EntryOk(enc, s.history, s.texts[|s.texts| - 1]);
    case _ =>
  }

  lemma {:induction false} RunKeepsInv(enc: Encoder, max: nat, s: State, events: seq<Event>)
    requires Inv(enc, max, s) && ValidRun(enc, s, events)
    ensures Inv(enc, max, Final(enc, s, events))
    decreases |events|
  {
    if |events| > 0 {
      StepKeepsInv(enc, max, s, events[0]);
      RunKeepsInv(enc, max, Apply(enc, s, events[0]), events[1..]);
    }
  }

  // ---------- Theorems over every run ----------

  ghost predicate Reachable(enc: Encoder, max: nat, s: State) {
    exists first, events ::
      ValidRun(enc, Initial(enc, max, first), events) && Final(enc, Initial(enc, max, first), events) == s
  }

  lemma ReachableKeepsInv(enc: Encoder, max: nat, s: State)
    requires Reachable(enc, max, s)
    ensures Inv(enc, max, s)
  {
    var first, events :|
      ValidRun(enc, Initial(enc, max, first), events) && Final(enc, Initial(enc, max, first), events) == s;
    RunKeepsInv(enc, max, Initial(enc, max, first), events);
  }

  ghost predicate WasClient(s: State, c: Client) {
    c in s.live || c in s.gone
  }

  /** Every text a client is sent encodes an all-finite payload, or is the empty fallback. */
  lemma OnlyFiniteTextsAreSent(enc: Encoder, max: nat, s: State, c: Client, k: nat) returns (i: int)
    requires Reachable(enc, max, s) && WasClient(s, c) && k < |c.sent|
    ensures if i == -1 then c.sent[k].text == "{\"channels\":[]}"
            else
              && 0 <= i < |s.history| && enc(s.history[i]) == Encoded(c.sent[k].text)
              && forall ch :: 0 <= ch < |s.history[i].channels| ==>
                   && s.history[i].channels[ch].peak.Fin?
                   && forall b :: 0 <= b < |s.history[i].channels[ch].bins| ==> s.history[i].channels[ch].bins[b].Fin?
  {
    ReachableKeepsInv(enc, max, s);
    assert ClientOk(s.texts, c);
    i := s.texts[c.sent[k].version].first;
    assert EntryOk(enc, s.history, s.texts[c.sent[k].version]);
  }

  /** No version is sent to a client twice, and texts arrive in the order of their payloads. */
  lemma TextsArriveInOrder(enc: Encoder, max: nat, s: State, c: Client, j: nat, k: nat) returns (a: int, b: int)
    requires Reachable(enc, max, s) && WasClient(s, c) && j < k < |c.sent|
    ensures c.sent[j].version < c.sent[k].version && -1 <= a <= b < |s.history|
    ensures EncodingOf(enc, s.history, c.sent[j].text, a) && EncodingOf(enc, s.history, c.sent[k].text, b)
  {
    ReachableKeepsInv(enc, max, s);
    assert ClientOk(s.texts, c);
    var u, v := c.sent[j].version, c.sent[k].version;
    assert EntryOk(enc, s.history, s.texts[u]) && EntryOk(enc, s.history, s.texts[v]);
    a, b := s.texts[u].asOf, s.texts[v].first;
  }

  /** A client admitted after a refresh that could encode payload `floor` starts from that payload
      or a newer one. */
  lemma AdmittedClientsStartFresh(enc: Encoder, max: nat, s: State, c: Client) returns (i: int)
    requires Reachable(enc, max, s) && WasClient(s, c) && |c.sent| > 0 && c.floor >= 0
    ensures c.floor <= i < |s.history| && AllFinite(s.history[i]) && enc(s.history[i]) == Encoded(c.sent[0].text)
  {
    ReachableKeepsInv(enc, max, s);
    assert ClientOk(s.texts, c);
    i := s.texts[c.sent[0].version].asOf;
    assert EntryOk(enc, s.history, s.texts[c.sent[0].version]);
  }

  /** Live clients never exceed the limit, and a client is turned away only when every slot is taken. */
  lemma ClientsAreBounded(enc: Encoder, max: nat, s: State)
    requires Reachable(enc, max, s)
    ensures |s.live| <= max
    ensures s.acceptor.Listening? ==> (s.free == 0 <==> |s.live| == max)
  {
    ReachableKeepsInv(enc, max, s);
  }

  /** Laziness costs connected clients nothing: whenever the serialiser runs while client `i` is
      connected and the newest payload can be encoded, that encoding becomes the newest text, and
      the client has sent it already or is enabled to. With nobody connected and no refresh asked
      for, nothing is encoded. */
  lemma ConnectedClientsAreServed(enc: Encoder, max: nat, s: State, text: Text)
    requires Reachable(enc, max, s) && Enabled(s, Serve) && enc(s.history[Version(s)]) == Encoded(text)
    requires forall ch :: 0 <= ch < |s.history[Version(s)].channels| ==>
               && s.history[Version(s)].channels[ch].peak.Fin?
               && forall b :: 0 <= b < |s.history[Version(s)].channels[ch].bins| ==>
                    s.history[Version(s)].channels[ch].bins[b].Fin?
    ensures var t := Apply(enc, s, Serve);
            && t.live == s.live
            && (|s.live| == 0 && !s.serialiser.refresh ==> t.texts == s.texts)
            && (|s.live| > 0 ==> NewestIs(t.texts, text, Version(s)))
            && forall i :: 0 <= i < |t.live| ==>
                 || HasSent(t.live[i], |t.texts| - 1, text)
                 || (Enabled(t, Send(i)) && HasSent(Apply(enc, t, Send(i)).live[i], |t.texts| - 1, text))
  {
    ReachableKeepsInv(enc, max, s);
    assert Serialise(enc, s.history[Version(s)]) == Encoded(text);
    ServedTexts(enc, s);
    if |s.live| > 0 {
      ServedIsReady(enc, s, text);
      var t := Served(enc, s);
      forall i | 0 <= i < |t.live| && Enabled(t, Send(i))
        ensures HasSent(Apply(enc, t, Send(i)).live[i], |t.texts| - 1, text)
      {
        SendsNewest(enc, t, i);
      }
    }
  }

  /** A send is of the newest text. */
  lemma SendsNewest(enc: Encoder, s: State, i: nat)
    requires Enabled(s, Send(i))
    ensures HasSent(Apply(enc, s, Send(i)).live[i], |s.texts| - 1, s.texts[|s.texts| - 1].text)
  {
  }

  /** The newest text, and the payload it is known to encode. */
  predicate NewestIs(texts: seq<Entry>, text: Text, asOf: int) {
    |texts| > 0 && texts[|texts| - 1].text == text && texts[|texts| - 1].asOf == asOf
  }

  lemma ServedIsReady(enc: Encoder, s: State, text: Text)
    requires TextsOk(enc, s.history, s.texts) && ClientsOk(s) && Enabled(s, Serve) && |s.live| > 0
    requires Serialise(enc, s.history[Version(s)]) == Encoded(text)
    ensures var t := Served(enc, s);
            && NewestIs(t.texts, text, Version(s))
            && forall i :: 0 <= i < |t.live| ==> Enabled(t, Send(i)) || HasSent(t.live[i], |t.texts| - 1, text)
  {
    ServedTexts(enc, s);
    PublishingKeepsTexts(enc, s, text);
    NewestText(s, text);
    EveryoneIsServed(s.live, s.texts, Publishing(s, text), text);
  }

  /** The last thing the client was sent. */
  predicate HasSent(c: Client, version: nat, text: Text) {
    |c.sent| > 0 && c.sent[|c.sent| - 1] == Sent(version, text)
  }

  lemma EveryoneIsServed(live: seq<Client>, before: seq<Entry>, after: seq<Entry>, text: Text)
    requires Grows(before, after) && after[|after| - 1].text == text
    requires forall i :: 0 <= i < |live| ==> ClientOk(before, live[i])
    ensures forall i :: 0 <= i < |live| ==>
              |live[i].sent| == 0 || live[i].seen != |after| - 1 || HasSent(live[i], |after| - 1, text)
  {
    forall i | 0 <= i < |live| && |live[i].sent| > 0 && live[i].seen == |after| - 1
      ensures HasSent(live[i], |after| - 1, text)
    {
      ClientGrows(before, after, live[i]);
      UpToDate(after, live[i]);
    }
  }

  lemma NewestText(s: State, text: Text)
    requires Enabled(s, Serve)
    ensures var texts := Publishing(s, text); |texts| > 0 && texts[|texts| - 1].text == text
  {
  }

  /** A client with nothing to send has sent the newest text. */
  lemma UpToDate(texts: seq<Entry>, c: Client)
    requires ClientOk(texts, c) && |c.sent| > 0 && c.seen == |texts| - 1
    ensures c.sent[|c.sent| - 1] == Sent(|texts| - 1, texts[|texts| - 1].text)
  {
  }

  /** While it listens, the accept loop turns a client away exactly when as many are connected as the
      limit allows; otherwise it takes a slot and asks for a refresh. */
  lemma AdmissionIsExact(enc: Encoder, max: nat, s: State)
    requires Reachable(enc, max, s) && s.acceptor.Listening?
    ensures Enabled(s, Accept) && |s.live| <= max
    ensures |s.live| == max ==> Apply(enc, s, Accept) == s
    ensures |s.live| < max ==>
              var t := Apply(enc, s, Accept);
              t.acceptor.Refreshing? && t.requested && t.free == max - |s.live| - 1 && t.live == s.live
  {
    ReachableKeepsInv(enc, max, s);
  }

  /** A refresh reads the newest payload, and hands it to the admission exactly when it is all finite
      and the encoder takes it. */
  lemma RefreshReadsTheNewest(enc: Encoder, s: State)
    requires Enabled(s, Serve) && s.serialiser.refresh
    ensures var t, v := Apply(enc, s, Serve), |s.history| - 1;
            && t.serialiser.Waiting?
            && if enc(s.history[v]).Encoded? &&
                  forall ch :: 0 <= ch < |s.history[v].channels| ==>
                    && s.history[v].channels[ch].peak.Fin?
                    && forall b :: 0 <= b < |s.history[v].channels[ch].bins| ==> s.history[v].channels[ch].bins[b].Fin?
               then && t.acceptor == Admitting(v)
                    && |t.texts| == |s.texts| + if enc(s.history[v]).text == s.texts[|s.texts| - 1].text then 0 else 1
               else t.acceptor == Admitting(-1) && t.texts == s.texts
  {
    ServedTexts(enc, s);
  }

  /** The text before anything was published: the first payload's, or the fallback. */
  lemma FirstTextIsTheFirstPayloads(enc: Encoder, max: nat, payload: Payload)
    ensures var s := Initial(enc, max, payload);
            && |s.texts| == 1 && s.free == max && s.live == []
            && s.texts[0].text ==
               if enc(payload).Encoded? &&
                  forall ch :: 0 <= ch < |payload.channels| ==>
                    && payload.channels[ch].peak.Fin?
                    && forall b :: 0 <= b < |payload.channels[ch].bins| ==> payload.channels[ch].bins[b].Fin?
               then enc(payload).text else "{\"channels\":[]}"
  {
  }

  /** After a pass the serialiser sleeps until the next payload, which wakes it. */
  lemma PayloadsWakeTheSerialiser(enc: Encoder, s: State, payload: Payload)
    requires Enabled(s, Serve)
    ensures var t := Apply(enc, s, Serve);
            && t.serialiser.Waiting? && !Enabled(t, Wake(false))
            && Enabled(Apply(enc, t, Publish(payload)), Wake(false))
            && Apply(enc, t, Publish(payload)).history == s.history + [payload]
  {
    ServedTexts(enc, s);
  }

  /** After the refresh the client is connected, with nothing sent yet, and a client that leaves
      frees its slot. */
  lemma SlotsFollowClients(enc: Encoder, max: nat, s: State, i: nat)
    requires Reachable(enc, max, s)
    ensures s.acceptor.Admitting? ==>
              var t := Apply(enc, s, Admit);
              && t.acceptor.Listening? && |t.live| == |s.live| + 1 && t.live[..|s.live|] == s.live
              && t.live[|s.live|] == Client(s.acceptor.floor, 0, []) && Enabled(t, Send(|s.live|))
    ensures i < |s.live| ==>
              var t := Apply(enc, s, Leave(i));
              && t.free == s.free + 1 && |t.live| == |s.live| - 1
              && (forall k :: 0 <= k < i ==> t.live[k] == s.live[k])
              && forall k :: i <= k < |t.live| ==> t.live[k] == s.live[k + 1]
  {
    ReachableKeepsInv(enc, max, s);
  }

  /** How far a refresh is from returning. */
  function Remaining(s: State): nat {
    if !s.acceptor.Refreshing? then 0
    else match s.serialiser
      case Stopped => 1
      case Woken(refresh) => if refresh then 1 else 3
      case Waiting => 2
  }

  /** The accept loop never waits for a refresh nobody will finish: some step other than a
      client's or the mapper's always brings it closer. */
  lemma RefreshNeverHangs(enc: Encoder, max: nat, s: State) returns (e: Event)
    requires Reachable(enc, max, s) && s.acceptor.Refreshing?
    ensures e in {Wake(true), Serve, RefreshFailed} && Enabled(s, e)
    ensures Remaining(Apply(enc, s, e)) < Remaining(s)
  {
    ReachableKeepsInv(enc, max, s);
    e := if s.serialiser.Stopped? then RefreshFailed else if s.serialiser.Waiting? then Wake(true) else Serve;
  }
}
