/** The bus boundary of the driver: Rust's fixed-width integers, the transport's error
    and result types, and an abstract command/data sink that records what it was sent
    and fails once its budget of transfers is spent. */
module Transport {

  /** Rust's `u8`. */
  type uint8 = x: int | 0 <= x < 0x100

  /** Rust's `u32`. */
  type uint32 = x: int | 0 <= x < 0x1_0000_0000

  /** `x as u8` for a value already in range. It is built by counting up so that proofs
      about symbolic bytes do not meet an integer-to-bit-vector conversion; `ByteIsCast`
      says it is the conversion. */
  function Byte(x: uint8): (b: bv8)
    decreases x
  {
    if x == 0 then 0 else Byte(x - 1) + 1
  }

  lemma {:induction false} ByteValue(x: uint8)
    ensures Byte(x) as int == x
    decreases x
  {
    if x > 0 {
      ByteValue(x - 1);
    }
  }

  lemma ByteIsCast(x: uint8)
    ensures Byte(x) == x as bv8
  {
    ByteValue(x);
  }

  /** The transport-defined failure of display_interface; the driver only passes it on. */
  datatype DisplayError =
    | InvalidFormatError
    | BusWriteError
    | DCError
    | CSError
    | DataFormatNotImplemented
    | RSError
    | OutOfBoundsError

  /** `Result<(), DisplayError>` */
  datatype Outcome = Ok | Err(error: DisplayError)

  /** One transfer on the bus: `send_commands` or `send_data` with its bytes. */
  datatype Event = Cmd(bytes: seq<bv8>) | Data(bytes: seq<bv8>)

  /** The part of `events` that a bus still able to complete `budget` transfers delivers,
      when the sender stops at the first failing transfer. */
  function Delivered(events: seq<Event>, budget: nat): (d: seq<Event>)
    ensures |d| == if |events| <= budget then |events| else budget
  {
    if |events| <= budget then events else events[..budget]
  }

  /** Delivering two runs of transfers one after the other: the second run starts with
      what is left of the budget, and is not started at all if the first run failed. */
  lemma DeliveredAppend(e1: seq<Event>, e2: seq<Event>, budget: nat)
    ensures Delivered(e1 + e2, budget) ==
            if |e1| <= budget then e1 + Delivered(e2, budget - |e1|) else Delivered(e1, budget)
  {
    if |e1| <= budget {
      if |e1 + e2| > budget {
        assert (e1 + e2)[..budget] == e1 + e2[..budget - |e1|];
      }
    } else {
      assert (e1 + e2)[..budget] == e1[..budget];
    }
  }

  /** A first run that fits is delivered whole, and the rest starts on what is left. */
  lemma DeliveredSplit(e1: seq<Event>, e2: seq<Event>, budget: nat)
    requires |e1| <= budget
    ensures Delivered(e1 + e2, budget) == e1 + Delivered(e2, budget - |e1|)
  {
    DeliveredAppend(e1, e2, budget);
  }

  /** A recorder that delivers a first run whole and then the second on what is left ends
      where delivering both runs together ends, and reports success for the second exactly
      when both together fitted. */
  lemma DeliveredThen(t0: seq<Event>, budget: nat, e1: seq<Event>, e2: seq<Event>)
    requires |e1| <= budget
    ensures t0 + Delivered(e1 + e2, budget) == (t0 + e1) + Delivered(e2, budget - |e1|)
    ensures budget - |Delivered(e1 + e2, budget)| == budget - |e1| - |Delivered(e2, budget - |e1|)|
    ensures (|e1 + e2| <= budget) == (|e2| <= budget - |e1|)
  {
    DeliveredSplit(e1, e2, budget);
    Regroup(t0, e1, Delivered(e2, budget - |e1|));
  }

  /** A budget spent within the first run delivers nothing of the second. */
  lemma DeliveredWithin(e1: seq<Event>, e2: seq<Event>, budget: nat)
    requires budget <= |e1|
    ensures Delivered(e1 + e2, budget) == Delivered(e1, budget)
  {
    if budget == |e1| {
      assert (e1 + e2)[..budget] == e1;
    } else {
      DeliveredAppend(e1, e2, budget);
    }
  }

  /** A run that does not fit in the budget is cut short: exactly `budget` transfers of it
      are delivered, and they are a proper prefix of the run. */
  lemma DeliveredStrictPrefix(events: seq<Event>, budget: nat)
    requires budget < |events|
    ensures Delivered(events, budget) < events
    ensures |Delivered(events, budget)| == budget
    ensures Delivered(events, budget) + events[budget..] == events
  {
  }

  /** Runs of transfers regroup freely. */
  lemma Regroup(a: seq<Event>, b: seq<Event>, c: seq<Event>)
    ensures (a + b) + c == a + (b + c)
  {
  }

  /** The concatenation of the bytes of all data transfers, in order. */
  function Payload(events: seq<Event>): (bytes: seq<bv8>)
  {
    if events == [] then []
    else (if events[0].Data? then events[0].bytes else []) + Payload(events[1..])
  }

  /** The number of command transfers. */
  function CommandCount(events: seq<Event>): (n: nat)
    ensures n <= |events|
  {
    if events == [] then 0
    else (if events[0].Cmd? then 1 else 0) + CommandCount(events[1..])
  }

  lemma {:induction false} PayloadAppend(a: seq<Event>, b: seq<Event>)
    ensures Payload(a + b) == Payload(a) + Payload(b)
    decreases |a|
  {
    if a == [] {
      assert a + b == b;
    } else {
      assert (a + b)[1..] == a[1..] + b;
      PayloadAppend(a[1..], b);
    }
  }

  lemma {:induction false} CommandCountAppend(a: seq<Event>, b: seq<Event>)
    ensures CommandCount(a + b) == CommandCount(a) + CommandCount(b)
    decreases |a|
  {
    if a == [] {
      assert a + b == b;
    } else {
      assert (a + b)[1..] == a[1..] + b;
      CommandCountAppend(a[1..], b);
    }
  }

  /** A data transfer followed by transfers that carry no data contributes exactly its own
      bytes ahead of what follows. */
  lemma PayloadOfChunk(chunk: seq<bv8>, commands: seq<Event>, rest: seq<Event>)
    requires Payload(commands) == []
    ensures Payload([Data(chunk)] + commands + rest) == chunk + Payload(rest)
  {
    PayloadAppend([Data(chunk)], commands);
    PayloadAppend([Data(chunk)] + commands, rest);
    assert Payload([Data(chunk)]) == chunk;
  }

  /** The transport the driver owns (`AsyncWriteOnlyDataCommand`), as a recording sink:
      it completes the next `budget` transfers and fails every transfer after that with
      `failure`. */
  class Bus {
    /** Every transfer the bus has completed, oldest first. */
    var trace: seq<Event>
    /** How many more transfers the bus completes before it fails. */
    var budget: nat
    /** The error the bus reports once its budget is spent. */
    const failure: DisplayError

    constructor (budget: nat, failure: DisplayError)
      ensures trace == [] && this.budget == budget && this.failure == failure
    {
      trace := [];
      this.budget := budget;
      this.failure := failure;
    }

    /** Between the old state and the current one, the sender attempted the transfers of
        `events` in order, stopping at the first failure, and `r` is what it reported:
        the bus completed the prefix its budget allowed, and `r` is `Ok` exactly when the
        whole run fitted, otherwise the bus's own error unchanged. */
    twostate predicate Transmitted(events: seq<Event>, r: Outcome)
      reads this
    {
      && trace == old(trace) + Delivered(events, old(budget))
      && budget == old(budget) - |Delivered(events, old(budget))|
      && r == (if |events| <= old(budget) then Ok else Err(failure))
    }

    /** `send_commands(DataFormat::U8(bytes))` */
    method SendCommands(bytes: seq<bv8>) returns (r: Outcome)
      modifies this
      ensures Transmitted([Cmd(bytes)], r)
    {
      if budget == 0 {
        r := Err(failure);
      } else {
        trace := trace + [Cmd(bytes)];
        budget := budget - 1;
        r := Ok;
      }
    }

    /** `send_data(DataFormat::U8(bytes))` */
    method SendData(bytes: seq<bv8>) returns (r: Outcome)
      modifies this
      ensures Transmitted([Data(bytes)], r)
    {
      if budget == 0 {
        r := Err(failure);
      } else {
        trace := trace + [Data(bytes)];
        budget := budget - 1;
        r := Ok;
      }
    }
  }
}
