/** The sending side of the transport, reduced to the record of what the
    relay hands to `ws.send`, in order. */
module Transport {
  import opened Protocol

  class Outbox {
    var sent: seq<Delivery>

    constructor ()
      ensures sent == []
    {
      sent := [];
    }

    /** `ws.send(JSON.stringify(msg))` */
    method Send(to: ConnId, msg: Outbound)
      modifies this
      ensures sent == old(sent) + [Delivery(to, msg)]
    {
      sent := sent + [Delivery(to, msg)];
    }
  }
}
