/**
 What single commands come to through the whole stack: ring, codec, device and
 token, for any other clients at work meanwhile.
 */
module EndToEnd {
  import opened Wire
  import opened Token
  import opened TokenLaws
  import opened Ring
  import opened Correlation
  import opened Serial
  import opened Commands

  /** The client's own parameters fit its room for the response. */
  predicate Roomy(req: Request) { req.room.NoBuffer? || Sum(req.msg.lens) <= req.room.size }

  /** A client that sends a command the token does not know gets its own parameters back. */
  lemma {:induction false} EchoEndToEnd(run: seq<S>, steps: seq<Step>, l: nat, c: nat)
    requires SoundRun(run, steps) && l < |run| && c < |run[l].claims| && run[l].claims[c].outcome.Returned?
    requires var command := run[l].claims[c].req.msg.header.command;
             command < 0x8000_0000 && !Handled(Opcode(command))
    ensures var cl := run[l].claims[c];
            var m := cl.req.msg;
            && Sum(m.lens) <= |m.params| && cl.outcome.head.header.ack == 0 && cl.outcome.head.lens == m.lens
            && (Roomy(cl.req) ==>
                  && cl.outcome.response.Ok? && var r := cl.outcome.response.value;
                  r.header.ack == 0 && r.lens == m.lens && r.params == m.params[..Sum(m.lens)])
  {
    assert |run| == |steps| + 1;
    hide SoundRun, Order, Messages, ExecAll, Exec, Handled, Opcode;
    var j := ResponseIsSerial(run, steps, l, c);
    var cl, before := run[l].claims[c], Messages(run[l], Order(run, steps, l))[..j];
    EchoLaw(ExecAll(run[0].link.dev.mem, before), Told(cl.req));
  }

  /** A client that sets the fail bit is told of the failure, with its own parameters. */
  lemma {:induction false} FailEndToEnd(run: seq<S>, steps: seq<Step>, l: nat, c: nat)
    requires SoundRun(run, steps) && l < |run| && c < |run[l].claims| && run[l].claims[c].outcome.Returned?
    requires run[l].claims[c].req.msg.header.command >= 0x8000_0000
    ensures var cl := run[l].claims[c];
            var m := cl.req.msg;
            && Sum(m.lens) <= |m.params| && cl.outcome.head.header.ack == 6 && cl.outcome.head.lens == m.lens
            && (Roomy(cl.req) ==>
                  && cl.outcome.response.Ok? && var r := cl.outcome.response.value;
                  r.header.ack == 6 && r.lens == m.lens && r.params == m.params[..Sum(m.lens)])
  {
    assert |run| == |steps| + 1;
    hide SoundRun, Order, Messages, ExecAll, Exec;
    var j := ResponseIsSerial(run, steps, l, c);
    var cl, before := run[l].claims[c], Messages(run[l], Order(run, steps, l))[..j];
    FailLaw(ExecAll(run[0].link.dev.mem, before), Told(cl.req));
  }
}
