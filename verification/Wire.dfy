/** Messages end to end: marshalled, framed, cut out of the stream and read by the other side. A
    message crosses when the receiver finds it at the front of the stream, whatever follows. */
module Wire {
  import opened Bytes
  import opened Codec
  import opened Messages
  import opened Tables
  import opened Lobby
  import Framing
  import Server

  /** The receiver finds this message in front of `tail`. */
  predicate Arrives(sent: seq<byte>, tail: seq<byte>, instruction: nat, data: seq<byte>) {
    && Framing.Parse(sent + tail) == Framing.Received(Framing.Message(instruction, data))
    && Framing.Remaining(sent + tail) == tail
  }

  lemma {:induction false} FrameArrives(instruction: nat, data: seq<byte>, tail: seq<byte>)
    requires instruction < Framing.WORD && |data| <= Framing.MAX_PAYLOAD
    ensures Arrives(Framing.Frame(Framing.Message(instruction, data)), tail, instruction, data)
  {
    Framing.FrameParses(Framing.Message(instruction, data), tail);
  }

  // ---------- from the server ----------

  /** What the server puts on the stream, if `conn.Write` takes it. */
  function FromServer(instruction: nat, data: Option<seq<byte>>): Option<seq<byte>> {
    var bs :- data;
    if |bs| <= Framing.MAX_PAYLOAD then Some(Framing.Frame(Framing.Message(instruction, bs))) else None
  }

  lemma {:induction false} ChatSize(c: Chat)
    requires c.time < Capacity(8)
    ensures Encode(CHAT, ChatValues(c)).Some? <==> |c.username| <= 255 && |c.text| <= 65535
    ensures Encode(CHAT, ChatValues(c)).Some? ==> |Encode(CHAT, ChatValues(c)).value| == 11 + |c.username| + |c.text|
  {
    var vs := ChatValues(c);
    EncodeFrom(CHAT, vs, 2);
    EncodeFrom(CHAT, vs, 1);
    EncodeFrom(CHAT, vs, 0);
    assert CHAT[0..] == CHAT && vs[0..] == vs && CHAT[3..] == [] && vs[3..] == [];
  }

  /** A chat message from the server is sent exactly when the username has a one-byte length and
      name and text together have at most 65520 bytes, less than the text's own length allows;
      and what is sent arrives field for field. */
  lemma {:induction false} ChatCrossesIff(c: Chat, tail: seq<byte>)
    requires c.time < Capacity(8)
    ensures var sent := FromServer(C_MESSAGE, Encode(CHAT, ChatValues(c)));
      && (sent.Some? <==> |c.username| <= 255 && |c.username| + |c.text| <= 65520)
      && (sent.Some? ==>
            var data := Encode(CHAT, ChatValues(c)).value;
            Arrives(sent.value, tail, C_MESSAGE, data) && TakeChat(data) == Some(c))
  {
    ChatSize(c);
    if FromServer(C_MESSAGE, Encode(CHAT, ChatValues(c))).Some? {
      ChatArrives(c);
      FrameArrives(C_MESSAGE, Encode(CHAT, ChatValues(c)).value, tail);
    }
  }

  /** What a successful join sends arrives, and is the room the client joined. */
  lemma {:induction false} SnapshotCrosses(l: Lobby, tail: seq<byte>)
    requires Admissible(l) && SendableSnapshot(l).Some?
    ensures var sent := FromServer(C_YOU_JOIN_ROOM, SnapshotBytes(l));
      && sent.Some? && Arrives(sent.value, tail, C_YOU_JOIN_ROOM, SnapshotBytes(l).value)
      && TakeJoinReply(SnapshotBytes(l).value) == Some(Joined(SnapshotOf(l)))
  {
    SnapshotArrives(SnapshotOf(l));
    FrameArrives(C_YOU_JOIN_ROOM, SnapshotBytes(l).value, tail);
  }

  // ---------- from the client ----------

  /** What the client puts on the stream; nothing when writing the message or packing it throws. */
  function FromClient(instruction: nat, data: Option<seq<byte>>): Option<seq<byte>> {
    var bs :- data;
    Framing.Packed(Framing.Message(instruction, bs))
  }

  lemma {:induction false} PackedArrives(instruction: nat, bs: seq<byte>, tail: seq<byte>)
    requires instruction < Framing.WORD
    ensures var sent := FromClient(instruction, Some(bs));
      && (sent.Some? <==> |bs| <= Framing.MAX_PAYLOAD + 1)
      && (sent.Some? ==> (Arrives(sent.value, tail, instruction, bs) <==> |bs| <= Framing.MAX_PAYLOAD))
  {
    if |bs| <= Framing.MAX_PAYLOAD + 1 {
      Framing.PackedArrivesIffItFits(Framing.Message(instruction, bs), tail);
      if |bs| <= Framing.MAX_PAYLOAD {
        FrameArrives(instruction, bs, tail);
        Framing.PackedIsFrame(Framing.Message(instruction, bs));
      }
    }
  }

  /** A join request arrives with all its fields exactly when the name has a one-byte length and
      name and password together have at most 65526 bytes. */
  lemma {:induction false} JoinRequestCrossesIff(j: JoinRequest, tail: seq<byte>)
    ensures
      var data := PutJoinRequest(j);
      var sent := FromClient(Server.S_JOIN_ROOM, data);
      && (sent.Some? && Arrives(sent.value, tail, Server.S_JOIN_ROOM, data.value)
          <==> |j.username| <= 255 && |j.username| + |j.password| <= 65526)
      && (sent.Some? ==> Decode(JOIN_REQUEST, data.value) == Some(Parsed(JoinValues(j), [])))
  {
    JoinRequestArrives(j);
    var data := PutJoinRequest(j);
    if data.Some? {
      assert |data.value| == 5 + |j.username| + |j.password|;
      PackedArrives(Server.S_JOIN_ROOM, data.value, tail);
    }
  }

  /** A chat line typed at one client is shown at another exactly when the sender's name and the
      line together have at most 65520 bytes: the client can send longer ones, which the server
      receives and cannot pass on. */
  lemma {:induction false} ChatLineCrossesIff(u: User, text: seq<byte>, time: nat, tail: seq<byte>, tail': seq<byte>)
    requires time < Capacity(8)
    ensures
      var line := EncodeBlob("2", text);
      var sent := FromClient(Server.S_MESSAGE, line);
      var passedOn := FromServer(C_MESSAGE, Encode(CHAT, ChatValues(Chat(time, u.name, text))));
      && (sent.Some? && Arrives(sent.value, tail, Server.S_MESSAGE, line.value) <==> |text| <= 65529)
      && (sent.Some? ==> Decode(CHAT_REQUEST, line.value) == Some(Parsed([Blob(text)], [])))
      && (passedOn.Some? <==> |u.name| + |text| <= 65520)
      && (passedOn.Some? ==>
            var data := Encode(CHAT, ChatValues(Chat(time, u.name, text))).value;
            Arrives(passedOn.value, tail', C_MESSAGE, data) && TakeChat(data) == Some(Chat(time, u.name, text)))
  {
    var line := EncodeBlob("2", text);
    ChatCrossesIff(Chat(time, u.name, text), tail');
    if line.Some? {
      ChatRequestArrives(text);
      assert |line.value| == 2 + |text|;
      PackedArrives(Server.S_MESSAGE, line.value, tail);
    }
  }
}
