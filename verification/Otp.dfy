/** One-time passwords in Redis (apps/api/src/lib/otp.ts) on a clock in whole seconds.
    HMAC is not modelled: an OTP is represented by its hash. */
module Otp {
  import opened Options

  const OTP_TTL_SECONDS: nat := 300
  const OTP_MAX_ATTEMPTS: nat := 5

  type Hash = int
  type Phone = int
  datatype Channel = Sms | Whatsapp | Log
  datatype Stored = Stored(hash: Hash, attempts: nat, channel: Channel, expiresAt: int)
  datatype VerifyResult = Success(channel: Channel) | Expired | Invalid(attemptsRemaining: int) | MaxAttempts

  /** The key as a reader at time `now` finds it. */
  function Live(slot: Option<Stored>, now: int): Option<Stored> {
    if slot.Some? && now < slot.value.expiresAt then slot else None
  }

  function Store(now: int, hash: Hash, channel: Channel): Option<Stored> {
    Some(Stored(hash, 0, channel, now + OTP_TTL_SECONDS))
  }

  /** One run of the verify script: the new key and the answer. */
  function Verify(slot: Option<Stored>, now: int, hash: Hash): (Option<Stored>, VerifyResult) {
    match Live(slot, now)
    case None => (slot, Expired)
    case Some(s) =>
      if hash == s.hash then (None, Success(s.channel))
      else if s.attempts + 1 >= OTP_MAX_ATTEMPTS then (None, MaxAttempts)
      else (Some(s.(attempts := s.attempts + 1)), Invalid(OTP_MAX_ATTEMPTS - (s.attempts + 1)))
  }

  class Redis {
    var now: int
    var keys: map<Phone, Stored>

    ghost function Slot(phone: Phone): Option<Stored>
      reads this
    {
      if phone in keys then Some(keys[phone]) else None
    }

    constructor (now: int)
      ensures this.now == now && keys == map[]
    {
      this.now, keys := now, map[];
    }

    method StoreOtp(phone: Phone, hash: Hash, channel: Channel)
      modifies this`keys
      ensures Slot(phone) == Store(now, hash, channel)
      ensures forall p :: p != phone ==> Slot(p) == old(Slot(p))
    {
      keys := keys[phone := Stored(hash, 0, channel, now + OTP_TTL_SECONDS)];
    }

    method VerifyAndConsume(phone: Phone, computed: Hash) returns (r: VerifyResult)
      modifies this`keys
      ensures (Slot(phone), r) == Verify(old(Slot(phone)), now, computed)
      ensures forall p :: p != phone ==> Slot(p) == old(Slot(p))
    {
      if phone !in keys || now >= keys[phone].expiresAt {
        return Expired;
      }
      var data := keys[phone];
      if computed == data.hash {
        keys := keys - {phone};
        return Success(data.channel);
      }
      var attempts := data.attempts + 1;
      if attempts >= OTP_MAX_ATTEMPTS {
        keys := keys - {phone};
        return MaxAttempts;
      }
      var ttl := data.expiresAt - now;
      if ttl > 0 {
        keys := keys[phone := data.(attempts := attempts, expiresAt := now + ttl)];
      }
      r := Invalid(OTP_MAX_ATTEMPTS - attempts);
    }
  }

  // ---------- Any interleaving of verify calls after one store ----------

  datatype Call = Call(at: int, hash: Hash)

  ghost predicate InOrder(calls: seq<Call>) {
    forall i, j :: 0 <= i <= j < |calls| ==> calls[i].at <= calls[j].at
  }

  function After(slot: Option<Stored>, calls: seq<Call>): Option<Stored>
    decreases |calls|
  {
    if calls == [] then slot else After(Verify(slot, calls[0].at, calls[0].hash).0, calls[1..])
  }

  function Answer(slot: Option<Stored>, calls: seq<Call>, i: nat): VerifyResult
    requires i < |calls|
  {
    Verify(After(slot, calls[..i]), calls[i].at, calls[i].hash).1
  }

  function FirstMatch(calls: seq<Call>, hash: Hash): (n: nat)
    ensures n <= |calls|
    ensures forall i :: 0 <= i < n ==> calls[i].hash != hash
    ensures n < |calls| ==> calls[n].hash == hash
  {
    if calls == [] || calls[0].hash == hash then 0 else 1 + FirstMatch(calls[1..], hash)
  }

  lemma {:induction false} AfterSnoc(slot: Option<Stored>, calls: seq<Call>, c: Call)
    ensures After(slot, calls + [c]) == Verify(After(slot, calls), c.at, c.hash).0
    decreases |calls|
  {
    if calls == [] {
      assert [c][1..] == [];
      assert calls + [c] == [c];
    } else {
      AfterSnoc(Verify(slot, calls[0].at, calls[0].hash).0, calls[1..], c);
      assert (calls + [c])[1..] == calls[1..] + [c];
    }
  }

  /** The key after i calls, as a reader of call i finds it: alive with i attempts counted, or gone. */
  lemma {:induction false} SlotAfter(now: int, hash: Hash, channel: Channel, calls: seq<Call>, i: nat)
    requires InOrder(calls) && i < |calls|
    ensures var stored := Stored(hash, 0, channel, now + OTP_TTL_SECONDS);
      Live(After(Some(stored), calls[..i]), calls[i].at) ==
        if calls[i].at < stored.expiresAt && i <= FirstMatch(calls, hash) && i < OTP_MAX_ATTEMPTS
        then Some(stored.(attempts := i)) else None
  {
    var stored := Stored(hash, 0, channel, now + OTP_TTL_SECONDS);
    if i > 0 {
      SlotAfter(now, hash, channel, calls, i - 1);
      assert calls[..i] == calls[..i - 1] + [calls[i - 1]];
      AfterSnoc(Some(stored), calls[..i - 1], calls[i - 1]);
      assert calls[i - 1].at <= calls[i].at;
      ExpiryNeverLater(Some(stored), calls[..i - 1]);
    }
  }

  /** The expiry instant and the stored hash never change while the key exists. */
  lemma {:induction false} ExpiryNeverLater(slot: Option<Stored>, calls: seq<Call>)
    ensures var s := After(slot, calls);
      s.Some? ==> slot.Some? && s.value == slot.value.(attempts := s.value.attempts) && slot.value.attempts <= s.value.attempts
    decreases |calls|
  {
    if calls != [] {
      ExpiryNeverLater(Verify(slot, calls[0].at, calls[0].hash).0, calls[1..]);
    }
  }

  /** Every answer in closed form. The clock, the first matching call and the call's position decide it. */
  lemma AnswerClosedForm(now: int, hash: Hash, channel: Channel, calls: seq<Call>, i: nat)
    requires InOrder(calls) && i < |calls|
    ensures var first := FirstMatch(calls, hash);
      Answer(Store(now, hash, channel), calls, i) ==
        if calls[i].at >= now + OTP_TTL_SECONDS || i > first || i >= OTP_MAX_ATTEMPTS then Expired
        else if i == first then Success(channel)
        else if i == OTP_MAX_ATTEMPTS - 1 then MaxAttempts
        else Invalid(OTP_MAX_ATTEMPTS - (i + 1))
  {
    SlotAfter(now, hash, channel, calls, i);
  }

  /** At most one call succeeds, nothing succeeds or counts after a success or after max_attempts,
      and the sixth and later calls are all answered expired. */
  lemma OnceOnly(now: int, hash: Hash, channel: Channel, calls: seq<Call>, i: nat, j: nat)
    requires InOrder(calls) && i < j < |calls|
    ensures !Answer(Store(now, hash, channel), calls, i).Invalid? ==> Answer(Store(now, hash, channel), calls, j).Expired?
    ensures j >= OTP_MAX_ATTEMPTS ==> Answer(Store(now, hash, channel), calls, j).Expired?
  {
    AnswerClosedForm(now, hash, channel, calls, i);
    AnswerClosedForm(now, hash, channel, calls, j);
    assert calls[i].at <= calls[j].at;
  }

  /** The k-th wrong guess of a live code reports 5 - k guesses left, the fifth ends it. */
  lemma MismatchCountdown(now: int, hash: Hash, channel: Channel, calls: seq<Call>, k: nat)
    requires InOrder(calls) && 1 <= k <= |calls| && calls[k - 1].at < now + 300
    requires forall i :: 0 <= i < k ==> calls[i].hash != hash
    ensures Answer(Store(now, hash, channel), calls, k - 1) ==
      if k < 5 then Invalid(5 - k) else if k == 5 then MaxAttempts else Expired
  {
    AnswerClosedForm(now, hash, channel, calls, k - 1);
  }
}
