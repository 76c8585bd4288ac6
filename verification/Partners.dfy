/** The client's dispatch of roster messages, on the partner set alone. */
module Partners {
  import opened Wire
  import opened NetMsg
  import opened FrameWriter
  import Room

  /** What a delivered frame does to the partner set. */
  function ApplyFrame(ps: set<u32>, f: Frame, shown: bool): (qs: set<u32>) {
    if f.msgType == PARTNER_JOIN || (f.msgType == IMG_RECV && shown) then ps + {f.ip}
    else if f.msgType == PARTNER_EXIT then ps - {f.ip}
    else if f.msgType == PARTNER_JOIN2 then ps + set ip | ip in ListedIps(f.payload)
    else ps
  }

  /** A message and the frame it is sent as have the same effect. */
  lemma FrameActsAsMessage(ps: set<u32>, m: NetMsg, shown: bool)
    requires Measured(m)
    ensures ApplyFrame(ps, FrameOf(m), shown) == Room.ApplyMsg(ps, m, shown)
  {
    assert ListedIps([]) == [];
  }

  class Widget {
    var partner: set<u32>

    constructor ()
      ensures partner == {}
    {
      partner := {};
    }

    method AddPartner(ip: u32) returns (added: bool)
      modifies this
      ensures partner == old(partner) + {ip} && added == (ip !in old(partner))
    {
      if ip in partner {
        return false;
      }
      partner := partner + {ip};
      return true;
    }

    method RemovePartner(ip: u32)
      modifies this
      ensures partner == old(partner) - {ip}
    {
      if ip in partner {
        partner := partner - {ip};
      }
    }

    /** The dispatch, for the messages that concern the roster. */
    method DataSolve(f: Frame, shown: bool)
      modifies this
      ensures partner == ApplyFrame(old(partner), f, shown)
    {
      if f.msgType == PARTNER_JOIN || (f.msgType == IMG_RECV && shown) {
        var _ := AddPartner(f.ip);
      } else if f.msgType == PARTNER_EXIT {
        RemovePartner(f.ip);
      } else if f.msgType == PARTNER_JOIN2 {
        if |f.payload| != 0 && |f.payload| % 4 == 0 {
          var pos := 0;
          while pos < |f.payload|
            invariant 0 <= pos <= |f.payload| && pos % 4 == 0
            invariant partner + DecodedSet(f.payload, pos) == old(partner) + DecodedSet(f.payload, 0)
          {
            var _ := AddPartner(GetBe32(f.payload, pos));
            pos := pos + 4;
          }
          assert f.payload[0..] == f.payload;
        }
      }
    }
  }

  function DecodedSet(b: seq<byte>, pos: nat): (ips: set<u32>)
    requires pos <= |b|
  {
    set ip | ip in DecodeIps(b[pos..])
  }
}
