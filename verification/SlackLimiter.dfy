/** The Slack dispatch limiter: a bounded channel of slots and a set of active
    channel:user scopes. Each step is one channel operation or one mutex section. */
module SlackLimiter {
  import opened Text

  const DEFAULT_CAPACITY: nat := 4

  datatype Limiter = Limiter(capacity: nat, slots: nat, active: set<string>)

  predicate Fits(l: Limiter) {
    1 <= l.capacity && l.slots <= l.capacity
  }

  /** A send that does not wait. */
  function TrySendStep(l: Limiter): (Limiter, bool) {
    if l.slots < l.capacity then (l.(slots := l.slots + 1), true) else (l, false)
  }

  /** A receive; without a token it has to wait. */
  function ReceiveStep(l: Limiter): Option<Limiter> {
    if l.slots == 0 then None else Some(l.(slots := l.slots - 1))
  }

  function ReserveStep(l: Limiter, key: string): (Limiter, bool) {
    if key in l.active then (l, false) else (l.(active := l.active + {key}), true)
  }

  function FreeStep(l: Limiter, key: string): Limiter {
    l.(active := l.active - {key})
  }

  /** Admission whose steps nothing comes between. */
  function Admission(l: Limiter, key: string): (r: (Limiter, bool))
    ensures r.1 <==> l.slots < l.capacity && key !in l.active
    ensures !r.1 ==> r.0 == l
    ensures r.1 ==> ReceiveStep(FreeStep(r.0, key)) == Some(l)
  {
    var (sent, took) := TrySendStep(l);
    if !took then (l, false)
    else
      var (reserved, free) := ReserveStep(sent, key);
      if free then
        assert sent.active + {key} - {key} == l.active;
        (reserved, true)
      else (ReceiveStep(reserved).value, false)
  }

  class DispatchLimiter {
    const capacity: nat
    var slots: nat
    var active: set<string>

    function Current(): Limiter
      reads this
    {
      Limiter(capacity, slots, active)
    }

    constructor (maxConcurrent: int)
      ensures Fits(Current()) && slots == 0 && active == {}
      ensures capacity == if maxConcurrent > 0 then maxConcurrent else 4
    {
      capacity := if maxConcurrent <= 0 then DEFAULT_CAPACITY else maxConcurrent;
      slots, active := 0, {};
    }

    method TrySend() returns (sent: bool)
      modifies this`slots
      ensures (Current(), sent) == TrySendStep(old(Current()))
      ensures old(Fits(Current())) ==> Fits(Current())
    {
      sent := slots < capacity;
      if sent {
        slots := slots + 1;
      }
    }

    /** A receive returns only when there is a token to receive. */
    method Receive()
      requires ReceiveStep(Current()).Some?
      modifies this`slots
      ensures Some(Current()) == ReceiveStep(old(Current()))
    {
      slots := slots - 1;
    }

    method Reserve(key: string) returns (reserved: bool)
      modifies this`active
      ensures (Current(), reserved) == ReserveStep(old(Current()), key)
    {
      reserved := key !in active;
      if reserved {
        active := active + {key};
      }
    }

    method Free(key: string)
      modifies this`active
      ensures Current() == FreeStep(old(Current()), key)
    {
      active := active - {key};
    }

    /** Uninterrupted, admission takes a slot and the scope together or neither. */
    method Begin(key: string) returns (admitted: bool)
      modifies this
      ensures (Current(), admitted) == Admission(old(Current()), key)
    {
      var sent := TrySend();
      if !sent {
        return false;
      }
      admitted := Reserve(key);
      if !admitted {
        Receive();
      }
    }

    /** The closure an admission returns: it gives back both, once there is a token. */
    method Release(key: string)
      requires ReceiveStep(Current()).Some?
      modifies this
      ensures Some(Current()) == ReceiveStep(FreeStep(old(Current()), key))
    {
      Free(key);
      Receive();
    }
  }
}
