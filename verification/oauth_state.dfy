/** The signed authorisation state (internal/credentials/state.go): what a
    verified state says, and that it was signed. */
module OAuthState {
  import opened Readings
  import opened Base64Url

  const STATE_TTL: int := 10 * MINUTE
  const PAYLOAD_LEN: nat := 56

  type Uuid = b: Bytes | |b| == 16
    witness seq(16, _ => 0)

  datatype Claims = Claims(company: Uuid, credential: Uuid, expiry: int, nonce: Uuid)

  // ----- Seconds on the wire

  /** Seconds from Go's zero time to the Unix epoch. */
  const UNIX_EPOCH: int := 62_135_596_800
  const TWO_64: int := 0x1_0000_0000_0000_0000
  const TWO_63: int := 0x8000_0000_0000_0000

  /** Unix seconds, rounded down. */
  function UnixSeconds(t: int): int {
    t / SECOND - UNIX_EPOCH
  }

  function FromUnix(seconds: int): int {
    (seconds + UNIX_EPOCH) * SECOND
  }

  /** The instants whose second count fits an int64, as every Go time's does. */
  predicate Representable(t: int) {
    -TWO_63 <= UnixSeconds(t) < TWO_63
  }

  function AsUint64(v: int): nat {
    v % TWO_64
  }

  function AsInt64(v: nat): int
    requires v < TWO_64
  {
    if v < TWO_63 then v else v - TWO_64
  }

  /** The `count` low bytes of v, most significant first. */
  function BigEndian(v: nat, count: nat): (b: Bytes)
    ensures |b| == count
  {
    if count == 0 then [] else BigEndian(v / 256, count - 1) + [v % 256]
  }

  function FromBigEndian(b: Bytes): (v: nat) {
    if b == [] then 0 else FromBigEndian(b[..|b| - 1]) * 256 + b[|b| - 1]
  }

  function Power256(count: nat): (p: nat)
    ensures p > 0
  {
    if count == 0 then 1 else 256 * Power256(count - 1)
  }

  /** Byte i counts the powers of 256 from the most significant one down. */
  lemma {:induction false} MostSignificantFirst(v: nat, count: nat, i: nat)
    requires i < count
    ensures BigEndian(v, count)[i] == v / Power256(count - 1 - i) % 256
  {
    if i < count - 1 {
      MostSignificantFirst(v / 256, count - 1, i);
      DivideTwice(v, 256, Power256(count - 2 - i));
    }
  }

  lemma DivideTwice(v: nat, a: nat, b: nat)
    requires a > 0 && b > 0
    ensures a * b > 0 && v / a / b == v / (a * b)
  {
    var q := v / a;
    var k, r := q / b, q % b;
    assert v == (k * b + r) * a + v % a;
    assert (k * b + r) * a == k * (a * b) + r * a;
    assert r * a + v % a < a * b by {
      assert r + 1 <= b;
      assert (r + 1) * a <= b * a;
    }
    DivisionIs(v, a * b, k, r * a + v % a);
  }

  lemma DivisionIs(v: nat, d: nat, k: nat, rest: nat)
    requires d > 0 && v == k * d + rest && rest < d
    ensures v / d == k
  {
    var e: int := v / d - k;
    assert e * d == rest - v % d;
    MultipleGrows(e, d);
  }

  lemma MultipleGrows(e: int, d: int)
    requires d >= 0
    ensures e >= 1 ==> e * d >= d
    ensures e <= -1 ==> e * d + d <= 0
  {
    if e >= 1 {
      assert (e - 1) * d >= 0;
    } else if e <= -1 {
      assert (-e - 1) * d >= 0;
    }
  }

  /** The Unix epoch is 719 162 days after Go's zero time. */
  lemma EpochIsKnown()
    ensures FromUnix(0) == 719_162 * DAY
  {
  }

  lemma {:induction false} BigEndianRoundTrip(v: nat, count: nat)
    requires v < Power256(count)
    ensures FromBigEndian(BigEndian(v, count)) == v
  {
    if count > 0 {
      BigEndianRoundTrip(v / 256, count - 1);
      var b := BigEndian(v, count);
      assert b[..|b| - 1] == BigEndian(v / 256, count - 1);
    }
  }

  lemma {:induction false} BytesRoundTrip(b: Bytes)
    ensures FromBigEndian(b) < Power256(|b|)
    ensures BigEndian(FromBigEndian(b), |b|) == b
  {
    if b != [] {
      BytesRoundTrip(b[..|b| - 1]);
      var v, last := FromBigEndian(b[..|b| - 1]), b[|b| - 1];
      assert (v * 256 + last) / 256 == v && (v * 256 + last) % 256 == last;
      assert b == b[..|b| - 1] + [last];
    }
  }

  lemma EightBytes()
    ensures Power256(8) == TWO_64
  {
    assert Power256(4) == 0x1_0000_0000;
    assert Power256(8) == 256 * (256 * (256 * (256 * Power256(4))));
  }

  // ----- Signing and verifying

  function PayloadBytes(c: Claims): (b: Bytes)
    ensures |b| == PAYLOAD_LEN
  {
    c.company + c.credential + BigEndian(AsUint64(UnixSeconds(c.expiry)), 8) + c.nonce
  }

  function ClaimsOf(payload: Bytes): Claims
    requires |payload| == PAYLOAD_LEN
  {
    BytesRoundTrip(payload[32..40]);
    EightBytes();
    Claims(payload[..16], payload[16..32], FromUnix(AsInt64(FromBigEndian(payload[32..40]))), payload[40..])
  }

  /** The wire layout: company, credential, expiry in eight bytes, nonce. */
  lemma PayloadLayout(c: Claims)
    ensures var b := PayloadBytes(c);
      && b[..16] == c.company && b[16..32] == c.credential && b[40..] == c.nonce
      && b[32..40] == BigEndian(AsUint64(UnixSeconds(c.expiry)), 8)
  {
  }

  /** What signing at `now` asserts; the expiry is cut to whole seconds. */
  function ClaimsAt(company: Uuid, credential: Uuid, nonce: Uuid, now: int): (c: Claims)
    ensures c.company == company && c.credential == credential && c.nonce == nonce
    ensures c.expiry % SECOND == 0 && c.expiry <= now + 10 * MINUTE < c.expiry + SECOND
  {
    Claims(company, credential, FromUnix(UnixSeconds(now + STATE_TTL)), nonce)
  }

  function StateOf(mac: Bytes -> Bytes, payload: Bytes): string {
    Encode(payload) + "." + Encode(mac(payload))
  }

  method SignState(mac: Bytes -> Bytes, company: Uuid, credential: Uuid, nonce: Uuid, now: int) returns (state: string)
    ensures state == StateOf(mac, PayloadBytes(ClaimsAt(company, credential, nonce, now)))
  {
    var payload: Bytes := [];
    payload := payload + company;
    payload := payload + credential;
    UnixRoundTrip(UnixSeconds(now + STATE_TTL));
    payload := payload + BigEndian(AsUint64(UnixSeconds(now + STATE_TTL)), 8);
    payload := payload + nonce;
    assert payload == PayloadBytes(ClaimsAt(company, credential, nonce, now));
    var sig := mac(payload);
    state := Encode(payload) + "." + Encode(sig);
  }

  lemma UnixRoundTrip(seconds: int)
    ensures UnixSeconds(FromUnix(seconds)) == seconds
  {
  }

  /** The position of the first dot, or the length when there is none. */
  function FirstDot(s: string): (i: nat)
    ensures i <= |s| && '.' !in s[..i] && (i < |s| ==> s[i] == '.')
  {
    if s == "" || s[0] == '.' then 0
    else
      var i := 1 + FirstDot(s[1..]);
      assert s[..i] == [s[0]] + s[1..][..i - 1];
      i
  }

  /** The payload a token carries under a valid signature. */
  function SignedPayload(mac: Bytes -> Bytes, token: string): (p: Option<Bytes>)
    ensures p.Some? ==> |p.value| == PAYLOAD_LEN
  {
    var dot := FirstDot(token);
    if dot == |token| then None
    else
      var payload, sig := Decode(token[..dot]), Decode(token[dot + 1..]);
      if payload.None? || |payload.value| != PAYLOAD_LEN || sig != Some(mac(payload.value)) then None else payload
  }

  method VerifyState(mac: Bytes -> Bytes, token: string, now: int) returns (claims: Option<Claims>)
    ensures claims.Some? <==>
      SignedPayload(mac, token).Some? && now <= ClaimsOf(SignedPayload(mac, token).value).expiry
    ensures claims.Some? ==> claims.value == ClaimsOf(SignedPayload(mac, token).value)
  {
    var dot := FirstDot(token);
    if dot == |token| {
      return None;
    }
    var payload := Decode(token[..dot]);
    if payload.None? || |payload.value| != PAYLOAD_LEN {
      return None;
    }
    var sig := Decode(token[dot + 1..]);
    if sig.None? {
      return None;
    }
    var expected := mac(payload.value);
    if expected != sig.value {
      return None;
    }
    var c := ClaimsOf(payload.value);
    if now > c.expiry {
      return None;
    }
    return Some(c);
  }

  // ----- What a verified state says

  lemma {:induction false} DotSplits(a: string, b: string)
    requires '.' !in a
    ensures FirstDot(a + "." + b) == |a|
    ensures (a + "." + b)[..|a|] == a && (a + "." + b)[|a| + 1..] == b
  {
    if a != "" {
      DotSplits(a[1..], b);
      assert (a + "." + b)[1..] == a[1..] + "." + b;
      assert a[0] in a;
    }
  }

  /** The claims of a payload are the payload: no two payloads share claims. */
  lemma PayloadOfClaims(payload: Bytes)
    requires |payload| == PAYLOAD_LEN
    ensures PayloadBytes(ClaimsOf(payload)) == payload
  {
    var wire := payload[32..40];
    BytesRoundTrip(wire);
    EightBytes();
    var v := FromBigEndian(wire);
    UnixRoundTrip(AsInt64(v));
    assert AsUint64(AsInt64(v)) == v;
    assert payload == payload[..16] + payload[16..32] + wire + payload[40..];
  }

  lemma ClaimsOfPayload(c: Claims)
    requires Representable(c.expiry) && c.expiry % SECOND == 0
    ensures ClaimsOf(PayloadBytes(c)) == c
  {
    var seconds := UnixSeconds(c.expiry);
    EightBytes();
    BigEndianRoundTrip(AsUint64(seconds), 8);
    assert AsInt64(AsUint64(seconds)) == seconds;
    assert FromUnix(seconds) == c.expiry;
    var p := PayloadBytes(c);
    assert p[..16] == c.company && p[16..32] == c.credential && p[40..] == c.nonce;
    assert p[32..40] == BigEndian(AsUint64(seconds), 8);
  }

  lemma SignedPayloadOfState(mac: Bytes -> Bytes, payload: Bytes)
    requires |payload| == PAYLOAD_LEN
    ensures SignedPayload(mac, StateOf(mac, payload)) == Some(payload)
  {
    DecodeEncode(payload);
    DecodeEncode(mac(payload));
    DotSplits(Encode(payload), Encode(mac(payload)));
  }

  /** What `VerifyState` answers, as a function. */
  function Verified(mac: Bytes -> Bytes, token: string, now: int): Option<Claims> {
    var p := SignedPayload(mac, token);
    if p.Some? && now <= ClaimsOf(p.value).expiry then Some(ClaimsOf(p.value)) else None
  }

  /** Verifying what was signed gives back exactly what was signed, until the
      second-truncated expiry has passed. */
  lemma VerifyRecoversWhatWasSigned(mac: Bytes -> Bytes, company: Uuid, credential: Uuid, nonce: Uuid, now: int, later: int)
    requires Representable(now + STATE_TTL)
    ensures var c := ClaimsAt(company, credential, nonce, now);
      && Verified(mac, StateOf(mac, PayloadBytes(c)), later) == (if later <= c.expiry then Some(c) else None)
      && now + STATE_TTL - SECOND < c.expiry <= now + STATE_TTL
  {
    var c := ClaimsAt(company, credential, nonce, now);
    UnixRoundTrip(UnixSeconds(now + STATE_TTL));
    ClaimsOfPayload(c);
    SignedPayloadOfState(mac, PayloadBytes(c));
  }

  /** A token carries a payload exactly when what precedes its first dot decodes to the
      payload, of 56 bytes, and what follows decodes to the payload's MAC. */
  lemma SignedPayloadMeans(mac: Bytes -> Bytes, token: string, payload: Bytes)
    ensures SignedPayload(mac, token) == Some(payload) <==>
      && FirstDot(token) < |token| && |payload| == 56
      && Decode(token[..FirstDot(token)]) == Some(payload)
      && Decode(token[FirstDot(token) + 1..]) == Some(mac(payload))
  {
  }

  /** Whatever verifies carries the MAC of exactly the claims it is taken to make. */
  lemma VerifiedMeansSigned(mac: Bytes -> Bytes, token: string, now: int, claims: Claims)
    requires Verified(mac, token, now) == Some(claims)
    ensures now <= claims.expiry
    ensures FirstDot(token) < |token|
    ensures Decode(token[..FirstDot(token)]) == Some(PayloadBytes(claims))
    ensures Decode(token[FirstDot(token) + 1..]) == Some(mac(PayloadBytes(claims)))
  {
    SignedPayloadMeans(mac, token, SignedPayload(mac, token).value);
    PayloadOfClaims(SignedPayload(mac, token).value);
  }

  function StateNonceKey(nonce: Uuid): string {
    "isolar:state:" + Encode(nonce)
  }

  lemma NonceKeysDiffer(a: Uuid, b: Uuid)
    requires StateNonceKey(a) == StateNonceKey(b)
    ensures a == b
  {
    var prefix := "isolar:state:";
    assert Encode(a) == StateNonceKey(a)[|prefix|..] && Encode(b) == StateNonceKey(b)[|prefix|..];
    EncodeInjective(a, b);
  }
}

/** Each signed state reaches the code exchange at most once
    (internal/credentials/isolar_oauth.go): states signed, callbacks arriving and
    nonce records expiring, interleaved on one clock. */
module SingleUse {
  import opened Readings
  import opened Base64Url
  import opened OAuthState

  /** A nonce store: each key with the instant its record expires. */
  class NonceStore {
    var consumed: map<string, int>

    /** Refuses a lifetime that is not positive; a failing store, or a cancelled
        caller, consumes nothing. */
    method Consume(key: string, ttl: int, now: int, fails: bool) returns (ok: bool, found: bool)
      modifies this
      ensures ok <==> ttl > 0 && !fails
      ensures found <==> ok && !(key in old(consumed) && now < old(consumed)[key])
      ensures consumed == if found then old(consumed)[key := now + ttl] else old(consumed)
    {
      if ttl <= 0 || fails {
        return false, false;
      }
      if key in consumed && now < consumed[key] {
        return true, false;
      }
      consumed := consumed[key := now + ttl];
      return true, true;
    }
  }

  /** The gate of a callback: it lets claims through to the code exchange only
      if they verify and their nonce was not consumed yet. */
  method CallbackGate(mac: Bytes -> Bytes, token: string, now: int, nonces: NonceStore, storeFails: bool)
    returns (claims: Option<Claims>)
    modifies nonces
    ensures claims.Some? <==>
      var c := Verified(mac, token, now);
      c.Some? && !storeFails && !Taken(old(nonces.consumed), StateNonceKey(c.value.nonce), now)
    ensures claims.Some? ==> claims == Verified(mac, token, now)
    ensures nonces.consumed
      == if claims.Some? then old(nonces.consumed)[StateNonceKey(claims.value.nonce) := now + STATE_TTL]
         else old(nonces.consumed)
  {
    claims := VerifyState(mac, token, now);
    if claims.None? {
      return;
    }
    var ok, found := nonces.Consume(StateNonceKey(claims.value.nonce), STATE_TTL, now, storeFails);
    if !ok || !found {
      return None;
    }
  }

  predicate Taken(consumed: map<string, int>, key: string, now: int) {
    key in consumed && now < consumed[key]
  }

  // ----- Every run

  /** A callback that reached the code exchange. */
  datatype Exchange = Exchange(nonce: Uuid, at: int)

  /** `signed`: when each nonce's state was signed. */
  datatype State = State(now: int, signed: map<Uuid, int>, consumed: map<string, int>, exchanges: seq<Exchange>)

  function Initial(now: int): State {
    State(now, map[], map[], [])
  }

  /** Nonces are fresh; a callback verifies and consumes at one instant. */
  datatype Step = Tick(nanoseconds: nat) | Sign(nonce: Uuid) | Callback(nonce: Uuid, storeFails: bool)

  predicate Enabled(s: State, step: Step) {
    match step
    case Tick(_) => true
    case Sign(nonce) => nonce !in s.signed
    case Callback(nonce, _) => nonce in s.signed
  }

  function Expiry(signedAt: int): int {
    FromUnix(UnixSeconds(signedAt + STATE_TTL))
  }

  predicate PassesGate(s: State, nonce: Uuid)
    requires nonce in s.signed
  {
    s.now <= Expiry(s.signed[nonce]) && !Taken(s.consumed, StateNonceKey(nonce), s.now)
  }

  /** The machine's gate is the callback's, for the state that was signed. */
  lemma GateIsTheCallbackGate(mac: Bytes -> Bytes, s: State, company: Uuid, credential: Uuid, nonce: Uuid)
    requires nonce in s.signed && Representable(s.signed[nonce] + STATE_TTL)
    ensures var state := StateOf(mac, PayloadBytes(ClaimsAt(company, credential, nonce, s.signed[nonce])));
      PassesGate(s, nonce) <==> Verified(mac, state, s.now).Some? && !Taken(s.consumed, StateNonceKey(nonce), s.now)
  {
    VerifyRecoversWhatWasSigned(mac, company, credential, nonce, s.signed[nonce], s.now);
  }

  function Apply(s: State, step: Step): State
    requires Enabled(s, step)
  {
    match step
    case Tick(n) => s.(now := s.now + n)
    case Sign(nonce) => s.(signed := s.signed[nonce := s.now])
    case Callback(nonce, storeFails) =>
      if storeFails || !PassesGate(s, nonce) then s
      else s.(consumed := s.consumed[StateNonceKey(nonce) := s.now + STATE_TTL],
              exchanges := s.exchanges + [Exchange(nonce, s.now)])
  }

  function Run(s: State, steps: seq<Step>): Option<State> {
    if steps == [] then Some(s)
    else
      var mid := Run(s, steps[..|steps| - 1]);
      if mid.Some? && Enabled(mid.value, steps[|steps| - 1])
      then Some(Apply(mid.value, steps[|steps| - 1])) else None
  }

  /** The one way round the record: a state signed on a whole second, consumed
      at that very instant, comes back at its expiry. */
  predicate BoundaryReplay(signedAt: int, first: int, second: int) {
    signedAt % SECOND == 0 && first == signedAt && second == signedAt + STATE_TTL
  }

  ghost predicate ExchangesOk(s: State) {
    && (forall k :: 0 <= k < |s.exchanges| ==>
         && s.exchanges[k].nonce in s.signed && s.signed[s.exchanges[k].nonce] <= s.exchanges[k].at <= s.now
         && StateNonceKey(s.exchanges[k].nonce) in s.consumed
         && s.exchanges[k].at + STATE_TTL <= s.consumed[StateNonceKey(s.exchanges[k].nonce)])
    && (forall j, k :: 0 <= j < k < |s.exchanges| && s.exchanges[j].nonce == s.exchanges[k].nonce ==>
         BoundaryReplay(s.signed[s.exchanges[j].nonce], s.exchanges[j].at, s.exchanges[k].at))
    && (forall n :: n in s.signed ==> s.signed[n] <= s.now)
  }

  /** A record made at `first` outlives the state unless it was made at the
      signing instant and that is a whole second. */
  lemma RecordOutlivesStateIff(signedAt: int, first: int)
    requires signedAt <= first
    ensures first + STATE_TTL > Expiry(signedAt) <==> !(first == signedAt && signedAt % SECOND == 0)
    ensures Expiry(signedAt) <= signedAt + STATE_TTL
  {
    var t := signedAt + STATE_TTL;
    assert t == t / SECOND * SECOND + t % SECOND;
    assert Expiry(signedAt) == t / SECOND * SECOND;
    assert STATE_TTL == 600 * SECOND;
    assert t % SECOND == signedAt % SECOND;
  }

  lemma CallbackKeepsExchanges(s: State, nonce: Uuid)
    requires ExchangesOk(s) && nonce in s.signed && PassesGate(s, nonce)
    ensures ExchangesOk(Apply(s, Callback(nonce, false)))
  {
    var t := Apply(s, Callback(nonce, false));
    var last := |s.exchanges|;
    assert t.exchanges[last] == Exchange(nonce, s.now);
    forall j | 0 <= j < last && s.exchanges[j].nonce == nonce
      ensures BoundaryReplay(s.signed[nonce], s.exchanges[j].at, s.now)
    {
      RecordOutlivesStateIff(s.signed[nonce], s.exchanges[j].at);
    }
  }

  lemma {:induction false} RunKeepsExchanges(now: int, steps: seq<Step>)
    requires Run(Initial(now), steps).Some?
    ensures ExchangesOk(Run(Initial(now), steps).value)
  {
    if steps != [] {
      var last := steps[|steps| - 1];
      RunKeepsExchanges(now, steps[..|steps| - 1]);
      var mid := Run(Initial(now), steps[..|steps| - 1]).value;
      if last.Callback? && !last.storeFails && PassesGate(mid, last.nonce) {
        CallbackKeepsExchanges(mid, last.nonce);
      }
    }
  }

  /** Over every run, two callbacks of one state reach the exchange only as a
      boundary replay; so a state not signed on a whole second, or first used
      later than the instant it was signed, is used once. */
  lemma EachStateIsExchangedOnce(now: int, steps: seq<Step>, j: nat, k: nat)
    requires Run(Initial(now), steps).Some?
    requires var t := Run(Initial(now), steps).value;
      j < k < |t.exchanges| && t.exchanges[j].nonce == t.exchanges[k].nonce
    ensures var t := Run(Initial(now), steps).value;
      && t.exchanges[j].nonce in t.signed
      && BoundaryReplay(t.signed[t.exchanges[j].nonce], t.exchanges[j].at, t.exchanges[k].at)
  {
    RunKeepsExchanges(now, steps);
  }

  // ----- The boundary replay is real

  function ReplaySteps(nonce: Uuid): seq<Step> {
    [Sign(nonce), Callback(nonce, false), Tick(600 * SECOND), Callback(nonce, false)]
  }

  lemma Extend(s0: State, steps: seq<Step>, s: State, step: Step)
    requires Run(s0, steps) == Some(s) && Enabled(s, step)
    ensures Run(s0, steps + [step]) == Some(Apply(s, step))
  {
    assert (steps + [step])[..|steps|] == steps;
  }

  lemma BoundaryReplayHappens(now: int, nonce: Uuid)
    requires now % SECOND == 0
    ensures var t := Run(Initial(now), ReplaySteps(nonce));
      t.Some? && t.value.exchanges == [Exchange(nonce, now), Exchange(nonce, now + STATE_TTL)]
  {
    var steps := ReplaySteps(nonce);
    RecordOutlivesStateIff(now, now);
    var key := StateNonceKey(nonce);
    var s1 := Initial(now).(signed := map[nonce := now]);
    var s2 := s1.(consumed := map[key := now + STATE_TTL], exchanges := [Exchange(nonce, now)]);
    var s3 := s2.(now := now + STATE_TTL);
    Extend(Initial(now), [], Initial(now), steps[0]);
    assert [] + [steps[0]] == steps[..1];
    Extend(Initial(now), steps[..1], s1, steps[1]);
    assert Apply(s1, steps[1]) == s2 && steps[..1] + [steps[1]] == steps[..2];
    Extend(Initial(now), steps[..2], s2, steps[2]);
    assert Apply(s2, steps[2]) == s3 && steps[..2] + [steps[2]] == steps[..3];
    Extend(Initial(now), steps[..3], s3, steps[3]);
    assert steps[..3] + [steps[3]] == steps;
    assert [Exchange(nonce, now)] + [Exchange(nonce, now + STATE_TTL)] == [Exchange(nonce, now), Exchange(nonce, now + STATE_TTL)];
  }
}
