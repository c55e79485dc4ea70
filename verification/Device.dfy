/**
 The emulated device around the token: containers filled by the mover and
 served round-robin by the scheduler.
 */
module Device {
  import opened Bytes
  import opened Wire
  import opened Codec
  import opened Token

  const CONTAINER_SIZE := 64 * 1024

  /** A container; `data` is what it holds, empty when `used` is 0. */
  datatype Container = Container(data: seq<byte>, busy: bool)

  datatype Device = Device(container: seq<Container>, cursor: nat, mem: Memory)

  const IDLE := Container([], false)

  predicate Wired(d: Device) {
    0 < |d.container| && d.cursor < |d.container|
  }

  predicate Staged(c: Container) { c.busy && c.data != [] }

  // ---- The mover ----

  predicate Vacant(c: Container) { c.data == [] && !c.busy }

  function FirstVacant(cs: seq<Container>, from: nat): (i: nat)
    requires from <= |cs|
    ensures from <= i <= |cs|
    ensures i < |cs| ==> Vacant(cs[i])
    ensures forall j | from <= j < i :: !Vacant(cs[j])
    decreases |cs| - from
  {
    if from == |cs| || Vacant(cs[from]) then from else FirstVacant(cs, from + 1)
  }

  /** When the mover takes a frame. */
  function IngestOutcome(d: Device, frame: seq<byte>): Result<nat> {
    if |frame| < FRAME_PREFIX_SIZE then Err(Inval)
    else if Get32(frame, 0) + FRAME_PREFIX_SIZE != |frame| then Err(Truncated)
    else if |frame| > CONTAINER_SIZE then Err(NoSpace)
    else
      var i := FirstVacant(d.container, 0);
      if i == |d.container| then Err(Full) else Ok(i)
  }

  /** `mock_mover_ingest`: stage a frame in the first free container. */
  function Ingest(d: Device, frame: seq<byte>): Device {
    var rc := IngestOutcome(d, frame);
    if rc.Err? then d else d.(container := d.container[rc.value := Container(frame, true)])
  }

  // ---- The scheduler ----

  /** A staged frame whose lengths do not wrap when summed. */
  predicate Parses(data: seq<byte>) {
    var m := Decode(data, Room.Some(MAX_PAYLOAD_SIZE));
    m.Ok? ==> Held(m.value)
  }

  /** Execute one staged request and encode its response. */
  function Serve(mem: Memory, data: seq<byte>, cap: nat): (Memory, Result<seq<byte>>)
    requires Parses(data)
  {
    var m := Decode(data, Room.Some(MAX_PAYLOAD_SIZE));
    if m.Err? then (mem, Err(m.error))
    else
      var (mem', r) := Exec(mem, m.value);
      var rc := EncodeOutcome(r.lens, Room.Some(MAX_PAYLOAD_SIZE), cap);
      if rc.Err? then (mem', Err(rc.error))
      else (mem', Ok(Frame(r)))
  }

  /** The container `n` places after the cursor. */
  function At(d: Device, n: nat): (i: nat)
    requires Wired(d)
    ensures i < |d.container|
  {
    (d.cursor + n) % |d.container|
  }

  /** How far after the cursor the first staged container is. */
  function NextStaged(d: Device, from: nat): (n: nat)
    requires Wired(d) && from <= |d.container|
    ensures from <= n <= |d.container|
    ensures n < |d.container| ==> Staged(d.container[At(d, n)])
    ensures forall k | from <= k < n :: !Staged(d.container[At(d, k)])
    decreases |d.container| - from
  {
    if from == |d.container| || Staged(d.container[At(d, from)]) then from else NextStaged(d, from + 1)
  }

  predicate AllParse(d: Device) {
    forall i | 0 <= i < |d.container| && Staged(d.container[i]) :: Parses(d.container[i].data)
  }

  /** `mock_mcu_step`: the next staged container after the cursor is served and freed. */
  function McuStep(d: Device, cap: nat): (Device, Result<seq<byte>>)
    requires Wired(d) && AllParse(d)
  {
    var n := NextStaged(d, 0);
    if n == |d.container| then (d, Err(State))
    else
      var i := At(d, n);
      var (mem, r) := Serve(d.mem, d.container[i].data, cap);
      (Device(d.container[i := IDLE], (i + 1) % |d.container|, mem), r)
  }

  /** The device as an object, with the scanning loops of the source. */
  class MockDevice {
    var container: seq<Container>
    var cursor: nat
    var mem: Memory

    ghost function Snapshot(): Device
      reads this
    {
      Device(container, cursor, mem)
    }

    method MoverIngest(frame: seq<byte>) returns (rc: Result<()>)
      modifies this
      ensures Snapshot() == Ingest(old(Snapshot()), frame)
      ensures rc.Ok? <==> IngestOutcome(old(Snapshot()), frame).Ok?
      ensures rc.Err? ==> rc.error == IngestOutcome(old(Snapshot()), frame).error
    {
      hide Get32;
      if |frame| < FRAME_PREFIX_SIZE {
        return Err(Inval);
      }
      if Get32(frame, 0) + FRAME_PREFIX_SIZE != |frame| {
        return Err(Truncated);
      }
      if |frame| > CONTAINER_SIZE {
        return Err(NoSpace);
      }
      var i := 0;
      while i < |container|
        invariant 0 <= i <= |container| && Snapshot() == old(Snapshot())
        invariant FirstVacant(container, 0) == FirstVacant(container, i)
      {
        if container[i].data == [] && !container[i].busy {
          container := container[i := Container(frame, true)];
          return Ok(());
        }
        i := i + 1;
      }
      return Err(Full);
    }

    method Step(cap: nat) returns (rsp: Result<seq<byte>>)
      requires Wired(Snapshot()) && AllParse(Snapshot())
      modifies this
      ensures Snapshot() == McuStep(old(Snapshot()), cap).0
      ensures rsp == McuStep(old(Snapshot()), cap).1
    {
      hide Serve, Parses;
      var n := 0;
      while n < |container|
        invariant 0 <= n <= |container| && Snapshot() == old(Snapshot())
        invariant NextStaged(Snapshot(), 0) == NextStaged(Snapshot(), n)
      {
        var idx := (cursor + n) % |container|;
        if container[idx].busy && container[idx].data != [] {
          var (mem', r) := Serve(mem, container[idx].data, cap);
          mem := mem';
          container := container[idx := IDLE];
          cursor := (idx + 1) % |container|;
          return r;
        }
        n := n + 1;
      }
      return Err(State);
    }
  }
}
