/** The manager program: link context and session state updated in place, proved against the functions of the table loop. */
module Center {
  import opened Crc
  import opened Packets
  import opened Link
  import opened Runs
  import opened TableLoop
  import Proto
  import Session

  class Manager {
    const proto: Proto.Context
    const session: Session.Manager

    ghost predicate Valid()
      reads this, proto, session
    {
      && proto.Valid() && session.Valid()
      && proto.terminalId != session.cdrAckBuffer
    }

    constructor (monitorCarrier: bool, script: seq<Read>, carrier: seq<bool>)
      ensures Valid() && Idle(proto.Now()) && Session.Good(session.State())
      ensures fresh(proto) && fresh(proto.terminalId) && fresh(session) && fresh(session.cdrAckBuffer)
    {
      proto := new Proto.Context(monitorCarrier, script, carrier);
      session := new Session.Manager();
    }

    /** Every table but the end of data is waited for. */
    method DownloadTable(table: seq<byte>) returns (alive: bool)
      requires Valid()
      modifies proto, proto.terminalId
      ensures Valid()
      ensures (proto.Now(), alive) == DownloadOne(old(proto.Now()), table)
    {
      hide SendTable, WaitForTableAck;
      var outcome := proto.SendTable(table);
      alive := outcome != Exit;
      if outcome == Returned(SUCCESS) && table != [] && table[0] != Session.END_DATA {
        var a := proto.AwaitTableAck(table[0]);
        alive := a != Exited;
      }
    }

    /** Tables are sent while the connection lasts. */
    method DownloadTables(tables: seq<seq<byte>>) returns (alive: bool)
      requires Valid()
      modifies proto, proto.terminalId
      ensures Valid()
      ensures (proto.Now(), alive) == Download(old(proto.Now()), tables)
    {
      ghost var goal := Download(proto.Now(), tables);
      var i := 0;
      assert tables[0..] == tables;
      hide Download;
      while i < |tables|
        invariant i <= |tables| && Valid()
        invariant Download(proto.Now(), tables[i..]) == goal
      {
        DownloadStep(proto.Now(), tables, i);
        if !proto.connected {
          return true;
        }
        alive := DownloadTable(tables[i]);
        if !alive {
          return;
        }
        i := i + 1;
      }
      alive := true;
      NothingToDownload(proto.Now(), tables);
    }

    /** Receives a table, answers its messages in one reply, and downloads if the terminal asked for it. */
    method ProcessTable(input: Input) returns (result: Result)
      requires Valid()
      modifies proto, proto.terminalId, session, session.cdrAckBuffer
      ensures Valid()
      ensures var (l, s, r) := TableLoop.ProcessTable(old(proto.Now()), old(session.State()), input);
        && (proto.Now(), result) == (l, r)
        && (r != Outside ==> session.State() == s)
    {
      hide Link.ReceiveTable, Session.Process, Narrow, SendTable, Download;
      var pkt := new PacketBuffer();
      var outcome := proto.ReceiveTable(pkt);
      if outcome == Exit {
        return Quit;
      }
      if Narrow(outcome.status) != 0 {
        return Refused(Narrow(outcome.status));
      }
      var ok, reply, download := session.ProcessMessages(pkt.payload[..], pkt.payloadLen, input.env);
      if !ok {
        return Outside;
      }
      if reply != [] {
        outcome := proto.SendTable(reply);
        if outcome == Exit {
          return Quit;
        }
      }
      if download {
        var alive := DownloadTables(input.tables);
        if !alive {
          return Quit;
        }
      }
      result := Processed;
    }

    /** One connection: tables until it is lost or three are refused in a row. */
    method HandleConnection(inputs: seq<Input>) returns (alive: bool)
      requires Valid()
      modifies proto, proto.terminalId, session, session.cdrAckBuffer
      ensures Valid()
      ensures var (l, s, a) := Connection(old(proto.Now()), old(session.State()), inputs, 0);
        (proto.Now(), alive) == (l, a) && (alive ==> session.State() == s)
    {
      ghost var goal := Connection(proto.Now(), session.State(), inputs, 0);
      var i, retries := 0, 0;
      assert inputs[0..] == inputs;
      while i < |inputs| && proto.connected && retries < 3
        invariant i <= |inputs| && Valid()
        invariant Connection(proto.Now(), session.State(), inputs[i..], retries) == goal
        decreases |inputs| - i
      {
        ConnectionStep(proto.Now(), session.State(), inputs, i, retries);
        hide Connection, TableLoop.ProcessTable;
        var result := ProcessTable(inputs[i]);
        i := i + 1;
        match result {
          case Quit => return false;
          case Outside => return false;
          case Processed => retries := 0;
          case Refused(_) => retries := retries + 1;
        }
      }
      if proto.connected {
        proto.Disconnect();
      }
      alive := true;
    }
  }

  lemma DownloadStep(l: State, tables: seq<seq<byte>>, i: nat)
    requires i < |tables|
    ensures Download(l, tables[i..]) ==
      if !l.connected then (l, true) else
      var (m, alive) := DownloadOne(l, tables[i]);
      if alive then Download(m, tables[i + 1..]) else (m, false)
  {
    hide DownloadOne;
    assert tables[i..][1..] == tables[i + 1..];
  }

  lemma NothingToDownload(l: State, tables: seq<seq<byte>>)
    ensures Download(l, tables[|tables|..]) == (l, true)
  {
  }

  lemma ConnectionStep(l: State, s: Session.Session, inputs: seq<Input>, i: nat, retries: nat)
    requires i < |inputs| && l.connected && retries < 3
    ensures var (m, t, result) := TableLoop.ProcessTable(l, s, inputs[i]);
      Connection(l, s, inputs[i..], retries) ==
        match result
        case Quit => (m, t, false)
        case Outside => (m, t, false)
        case Processed => Connection(m, t, inputs[i + 1..], 0)
        case Refused(_) => Connection(m, t, inputs[i + 1..], retries + 1)
  {
    hide TableLoop.ProcessTable;
    assert inputs[i..][1..] == inputs[i + 1..];
  }
}
