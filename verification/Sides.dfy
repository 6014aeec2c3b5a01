/** One direction of one pair of processes: what `me` keeps for its peer `you`. The invariants of
    the handshake are statements about two such sides, and are proved here one turn at a time. */
module Sides {
  import opened Options
  import opened PeerProtocol

  /** `record` is my record of you, `wire` what travels from me to you, `log` what I have done
      about you. */
  datatype Side = Side(who: Identity, at: Addr, record: Option<Record>, wire: seq<Datagram>, log: seq<Event>)

  /** The datagrams among the events. */
  function Sends(log: seq<Event>): seq<Datagram> {
    if log == [] then []
    else Sends(log[..|log| - 1]) + (var e := log[|log| - 1]; if e.Sent? then [e.datagram] else [])
  }

  /** The keys drawn among the events. */
  function Drawn(log: seq<Event>): seq<AesKey> {
    if log == [] then []
    else Drawn(log[..|log| - 1]) + (var e := log[|log| - 1]; if e.Generated? then [e.key] else [])
  }

  lemma {:induction false} LogsAppend(a: seq<Event>, b: seq<Event>)
    ensures Sends(a + b) == Sends(a) + Sends(b) && Drawn(a + b) == Drawn(a) + Drawn(b)
  {
    if b == [] {
      assert a + b == a;
    } else {
      assert (a + b)[..|a + b| - 1] == a + b[..|b| - 1];
      LogsAppend(a, b[..|b| - 1]);
    }
  }

  /** I hear `d` from you. */
  function Hear(me: Side, you: Addr, d: Datagram, draw: nat): Side {
    var r := React(me.who, you, me.record, d, draw);
    me.(record := r.node, wire := me.wire + Sends(r.events), log := me.log + r.events)
  }

  /** I say something on my own account: used for announcements. */
  function Say(me: Side, d: Datagram): Side {
    me.(wire := me.wire + [d])
  }

  function Without<T>(s: seq<T>, i: nat): seq<T>
    requires i < |s|
  {
    s[..i] + s[i + 1..]
  }

  function Drop(me: Side, i: nat): Side
    requires i < |me.wire|
  {
    me.(wire := Without(me.wire, i))
  }

  /** Announcements are the only datagrams outside the handshake. */
  predicate IsChatter(me: Side, d: Datagram) {
    d == Announcement(me.who.id)
  }

  /** The step of the handshake a datagram belongs to; 4 for none. */
  function Step(d: Datagram): nat {
    if d.Short? then 4 else
    match d.packet.body
    case PublicKeyRequest => 0
    case PublicKeyReply(_) => 1
    case EncryptionContext(_, _) => 2
    case Ready => 3
    case _ => 4
  }

  /** The four packets of the handshake, in order, as I would send them to you. */
  function Script(me: Side, you: Side): seq<Datagram> {
    var tx := if me.record.Some? then me.record.value.tx else Unset;
    [Clear(Make(me.who.id, you.who.id, PublicKeyRequest)),
     Clear(Make(me.who.id, you.who.id, PublicKeyReply(me.who.rsa))),
     Clear(Make(me.who.id, you.who.id, EncryptionContext(you.who.rsa, tx))),
     Sealed(tx, Make(me.who.id, you.who.id, Ready))]
  }

  function Min(a: nat, b: nat): nat { if a < b then a else b }

  /** How many packets of the script I have sent: one for knowing you, one for each of the first
      three of yours that I have taken in. */
  function SentCount(me: Side): nat {
    (if me.record.Some? then 1 else 0) + Min(3, Stage(me.record))
  }

  // ---------------------------------------------------------------------------------------------
  // Any network, replaying included

  /** Every send of mine is a packet of the handshake whose keys are really mine and yours, and a
      Ready goes out under a key I drew, after I decrypted one that you drew. */
  predicate Honest(me: Side, you: Side, i: nat)
    requires i < |me.log|
  {
    match me.log[i]
    case Generated(_) => true
    case Decrypted(k) => Generated(k) in you.log
    case Sent(dest, d) =>
      && dest == Peer(you.at)
      && (d.Clear? || d.Sealed?)
      && d.packet == Make(me.who.id, you.who.id, d.packet.body)
      && match d.packet.body
         case PublicKeyRequest => d.Clear?
         case PublicKeyReply(key) => d.Clear? && key == me.who.rsa
         case EncryptionContext(wrappedFor, key) => d.Clear? && wrappedFor == you.who.rsa && Generated(key) in me.log
         case Ready => d.Sealed? && Generated(d.key) in me.log && 0 < i && me.log[i - 1].Decrypted?
         case _ => false
  }

  /** What holds of my side in every run. */
  predicate Sound(me: Side, you: Side) {
    && (forall i :: 0 <= i < |me.log| ==> Honest(me, you, i))
    && (forall i :: 0 <= i < |me.wire| ==> IsChatter(me, me.wire[i]) || Sent(Peer(you.at), me.wire[i]) in me.log)
    && Backed(me, you)
  }

  /** My record is of you, and what it holds is backed by what we both did. */
  predicate Backed(me: Side, you: Side) {
    me.record.Some? ==>
      var r := me.record.value;
      && r.addr == you.at && r.id == you.who.id
      && (Stage(me.record) >= 2 ==> r.peerKey == Some(you.who.rsa) && Generated(r.tx) in me.log)
      && (Stage(me.record) >= 3 ==> Generated(r.rx) in you.log && Decrypted(r.rx) in me.log)
      && (Stage(me.record) >= 4 ==> Sent(Peer(me.at), Sealed(r.rx, Make(you.who.id, me.who.id, Ready))) in you.log)
  }

  predicate MutuallySound(a: Side, b: Side) {
    Sound(a, b) && Sound(b, a)
  }

  /** What a datagram found on your wire says about you. */
  ghost predicate Genuine(me: Side, you: Side, d: Datagram) {
    && (d.Clear? || d.Sealed?)
    && d.packet.fromId == you.who.id && d.packet.major == VERSION_MAJOR
    && match d.packet.body
       case PublicKeyReply(key) => d.Clear? && key == you.who.rsa
       case EncryptionContext(wrappedFor, key) => d.Clear? && wrappedFor == me.who.rsa && Generated(key) in you.log
       case Ready => d.Sealed? && d.packet.toId == me.who.id && Sent(Peer(me.at), d) in you.log
       case _ => d.Clear?
  }

  lemma OnTheWireIsGenuine(me: Side, you: Side, d: Datagram)
    requires Sound(you, me) && d in you.wire
    ensures Genuine(me, you, d)
  {
    if !IsChatter(you, d) {
      var j :| 0 <= j < |you.log| && you.log[j] == Sent(Peer(me.at), d);
      assert Honest(you, me, j);
    }
  }

  /** The record I am left with. */
  lemma HearKeepsRecord(me: Side, you: Side, d: Datagram, draw: nat)
    requires Backed(me, you) && me.who.id != you.who.id && Genuine(me, you, d)
    ensures Backed(Hear(me, you.at, d, draw), you)
  {
    var events := React(me.who, you.at, me.record, d, draw).events;
    var log := me.log + events;
    assert forall e :: e in me.log ==> e in log;
    assert forall e :: e in events ==> e in log;
  }

  /** Where each event of a turn comes from. */
  lemma EventOrigin(me: Identity, from: Addr, node: Option<Record>, d: Datagram, draw: nat, j: nat)
    requires j < |React(me, from, node, d, draw).events|
    ensures var events := React(me, from, node, d, draw).events;
      match events[j]
      case Generated(_) => true
      case Decrypted(k) => !d.Short? && d.packet.body.EncryptionContext? && d.packet.body.session == k
      case Sent(_, s) =>
        && !d.Short? && !s.Short?
        && s.packet == Make(me.id, if node.Some? then node.value.id else d.packet.fromId, s.packet.body)
        && match s.packet.body
           case PublicKeyRequest => s.Clear?
           case PublicKeyReply(key) => s.Clear? && key == me.rsa
           case EncryptionContext(rsa, key) =>
             s.Clear? && d.packet.body == PublicKeyReply(rsa) && Generated(key) in events
           case Ready => s.Sealed? && 0 < j && events[j - 1].Decrypted? && Stage(node) == 2 && s.key == node.value.tx
           case _ => false
  {
  }

  /** The events of one turn, appended to my log, are honest. */
  lemma HearAddsHonest(me: Side, you: Side, d: Datagram, draw: nat, i: nat)
    requires Sound(me, you) && me.who.id != you.who.id && Genuine(me, you, d)
    requires |me.log| <= i < |Hear(me, you.at, d, draw).log|
    ensures Honest(Hear(me, you.at, d, draw), you, i)
  {
    var events := React(me.who, you.at, me.record, d, draw).events;
    var log, j := me.log + events, i - |me.log|;
    EventOrigin(me.who, you.at, me.record, d, draw, j);
    if events[j].Sent? {
      OnlyReadyIsSealed(me.who, you.at, me.record, d, draw, events[j]);
    }
    assert log[i] == events[j] && (0 < j ==> log[i - 1] == events[j - 1]);
    assert forall e :: e in me.log ==> e in log;
    assert forall e :: e in events ==> e in log;
  }

  /** Hearing a datagram that was really on the wire keeps both sides sound, whether or not the
      network keeps a copy of it. */
  lemma HearKeepsSound(me: Side, you: Side, d: Datagram, draw: nat)
    requires MutuallySound(me, you) && me.who.id != you.who.id
    requires d in you.wire
    ensures MutuallySound(Hear(me, you.at, d, draw), you)
  {
    OnTheWireIsGenuine(me, you, d);
    var events := React(me.who, you.at, me.record, d, draw).events;
    var me' := Hear(me, you.at, d, draw);
    assert forall e :: e in me.log ==> e in me'.log;
    assert forall e :: e in events ==> e in me'.log;
    forall i | 0 <= i < |me'.log| ensures Honest(me', you, i) {
      if i < |me.log| {
        assert Honest(me, you, i);
      } else {
        HearAddsHonest(me, you, d, draw, i);
      }
    }
    forall e | e in events && e.Sent? ensures e.dest == Peer(you.at) {
      OnlyReadyIsSealed(me.who, you.at, me.record, d, draw, e);
    }
    SendsAreSent(events, you.at);
    HearKeepsRecord(me, you, d, draw);
    forall i | 0 <= i < |you.log| ensures Honest(you, me', i) {
      assert Honest(you, me, i);
    }
  }

  lemma {:induction false} SendsAreSent(log: seq<Event>, to: Addr)
    requires forall e :: e in log && e.Sent? ==> e.dest == Peer(to)
    ensures forall d :: d in Sends(log) <==> Sent(Peer(to), d) in log
  {
    if log != [] {
      SendsAreSent(log[..|log| - 1], to);
    }
  }

  lemma SayKeepsSound(me: Side, you: Side)
    requires MutuallySound(me, you)
    ensures MutuallySound(Say(me, Announcement(me.who.id)), you)
  {
    var me' := Say(me, Announcement(me.who.id));
    forall i | 0 <= i < |me.log| ensures Honest(me', you, i) { assert Honest(me, you, i); }
    forall i | 0 <= i < |you.log| ensures Honest(you, me', i) { assert Honest(you, me, i); }
  }

  lemma DropKeepsSound(me: Side, you: Side, k: nat)
    requires MutuallySound(me, you) && k < |me.wire|
    ensures MutuallySound(Drop(me, k), you)
  {
    var me' := Drop(me, k);
    forall i | 0 <= i < |me.log| ensures Honest(me', you, i) { assert Honest(me, you, i); }
    forall i | 0 <= i < |you.log| ensures Honest(you, me', i) { assert Honest(you, me, i); }
    forall i | 0 <= i < |me'.wire|
      ensures IsChatter(me', me'.wire[i]) || Sent(Peer(you.at), me'.wire[i]) in me'.log
    {
      assert me'.wire[i] == me.wire[if i < k then i else i + 1];
    }
  }

  // ---------------------------------------------------------------------------------------------
  // Networks that may lose and reorder, but not duplicate

  /** `d` is one of the packets `lo..hi` of `script`. */
  predicate Fits(script: seq<Datagram>, lo: nat, hi: nat, d: Datagram) {
    lo <= Step(d) < hi <= |script| && d == script[Step(d)]
  }

  /** A wire carries announcements `chat`, and distinct packets among `lo..hi` of `script`. */
  predicate Carries(chat: Datagram, script: seq<Datagram>, lo: nat, hi: nat, wire: seq<Datagram>) {
    && (forall i :: 0 <= i < |wire| ==> wire[i] == chat || Fits(script, lo, hi, wire[i]))
    && (forall i, j :: 0 <= i < j < |wire| && wire[i] == wire[j] ==> wire[i] == chat)
  }

  predicate OnScript(me: Side, you: Side, d: Datagram) {
    Fits(Script(me, you), Stage(you.record), SentCount(me), d)
  }

  /** The two records fit together: mine is a record of you, you cannot be ahead of what I have
      sent and, past Handshake, you hold the key I send under. */
  predicate Aligned(me: Side, you: Side) {
    && (me.record.Some? ==> me.record.value.addr == you.at && me.record.value.id == you.who.id)
    && Stage(you.record) <= SentCount(me)
    && (Stage(you.record) >= 3 ==> you.record.value.rx == me.record.value.tx)
  }

  /** My side is in order: I have sent a prefix of the script, each packet once; of those, only
      packets you have not moved past can still be travelling. */
  predicate Orderly(me: Side, you: Side) {
    && Aligned(me, you)
    && Sends(me.log) == Script(me, you)[..SentCount(me)]
    && Drawn(me.log) == (if Stage(me.record) >= 2 then [me.record.value.tx] else [])
    && Carries(Announcement(me.who.id), Script(me, you), Stage(you.record), SentCount(me), me.wire)
  }

  predicate MutuallyOrderly(a: Side, b: Side) {
    Orderly(a, b) && Orderly(b, a)
  }

  lemma ShortLogs(e: Event, f: Event)
    ensures Sends([e]) == (if e.Sent? then [e.datagram] else [])
    ensures Drawn([e]) == (if e.Generated? then [e.key] else [])
    ensures Sends([e, f]) == Sends([e]) + Sends([f]) && Drawn([e, f]) == Drawn([e]) + Drawn([f])
  {
    LogsAppend([e], [f]);
    assert [e][..0] == [];
    assert [e, f] == [e] + [f];
  }

  /** The next packet of your script is due: it is not an announcement, and my stage is its step. */
  predicate Due(me: Side, you: Side, d: Datagram) {
    !IsChatter(you, d) && Step(d) == Stage(me.record)
  }

  /** What I send on first contact. */
  function Greeting(me: Side, you: Side, d: Datagram): seq<Event> {
    if me.record.None? && !d.Sealed? then [Sent(Peer(you.at), Script(me, you)[0])] else []
  }

  /** What I do, at stage `s`, about the packet that is due; `me` is my side afterwards. */
  function Answer(me: Side, you: Side, s: nat): seq<Event> {
    match s
    case 0 => [Sent(Peer(you.at), Script(me, you)[1])]
    case 1 =>
      (if me.record.Some? then [Generated(me.record.value.tx)] else []) + [Sent(Peer(you.at), Script(me, you)[2])]
    case 2 =>
      (if me.record.Some? then [Decrypted(me.record.value.rx)] else []) + [Sent(Peer(you.at), Script(me, you)[3])]
    case _ => []
  }

  /** What one turn does to an orderly record: the stage moves, by exactly one, if the datagram is
      the next one of your script; otherwise I am left as I was, or with a new record. */
  ghost predicate Advances(me: Side, me': Side, you: Side, d: Datagram, events: seq<Event>) {
    && events == Greeting(me, you, d) + (if Due(me, you, d) then Answer(me', you, Stage(me.record)) else [])
    && Stage(me'.record) == Stage(me.record) + (if Due(me, you, d) then 1 else 0)
    && (me'.record.Some? <==> me.record.Some? || !d.Sealed?)
    && (me'.record.Some? ==> me'.record.value.addr == you.at && me'.record.value.id == you.who.id)
    && (me.record.Some? && !(Due(me, you, d) && Stage(me.record) == 1) ==> me'.record.value.tx == me.record.value.tx)
    && (Stage(me.record) >= 3 ==> me'.record.value.rx == me.record.value.rx)
    && (Stage(me.record) < 3 <= Stage(me'.record) ==> you.record.Some? && me'.record.value.rx == you.record.value.tx)
  }

  lemma HearDue(me: Side, you: Side, d: Datagram, draw: nat)
    requires Aligned(me, you) && Aligned(you, me) && me.who.id != you.who.id
    requires OnScript(you, me, d) && Due(me, you, d)
    ensures Advances(me, Hear(me, you.at, d, draw), you, d, React(me.who, you.at, me.record, d, draw).events)
  {
    var r := if me.record.Some? then me.record.value else NewRecord(you.who.id, you.at);
    var s := Stage(me.record);
    var me' := Hear(me, you.at, d, draw);
    assert Receive(me.who, you.at, me.record, d) == Accepted(r, d.packet, Greeting(me, you, d));
    if s == 0 {
      assert me'.record == Some(r.(state := KeyExchange));
    } else if s == 1 {
      assert me'.record == Some(r.(peerKey := Some(you.who.rsa), tx := Bits(draw), state := Handshake));
    } else if s == 2 {
      assert me'.record == Some(r.(rx := you.record.value.tx, state := CheckEncryption));
    } else {
      assert me'.record == Some(r.(state := Connected));
    }
    assert ProcessPacket(me.who, Some(r), d.packet, draw).events == Answer(me', you, s);
  }

  lemma HearOther(me: Side, you: Side, d: Datagram, draw: nat)
    requires Aligned(me, you) && Aligned(you, me) && me.who.id != you.who.id
    requires IsChatter(you, d) || OnScript(you, me, d)
    requires !Due(me, you, d)
    ensures Advances(me, Hear(me, you.at, d, draw), you, d, React(me.who, you.at, me.record, d, draw).events)
  {
    if d.Sealed? {
      assert Stage(me.record) < 3;
      assert React(me.who, you.at, me.record, d, draw) == Reaction(me.record, []);
    } else {
      var r := if me.record.Some? then me.record.value else NewRecord(you.who.id, you.at);
      assert Receive(me.who, you.at, me.record, d) == Accepted(r, d.packet, Greeting(me, you, d));
      assert ProcessPacket(me.who, Some(r), d.packet, draw) == Reaction(Some(r), []);
    }
  }

  lemma HearAdvances(me: Side, you: Side, d: Datagram, draw: nat)
    requires Aligned(me, you) && Aligned(you, me) && me.who.id != you.who.id
    requires IsChatter(you, d) || OnScript(you, me, d)
    ensures Advances(me, Hear(me, you.at, d, draw), you, d, React(me.who, you.at, me.record, d, draw).events)
  {
    if Due(me, you, d) {
      HearDue(me, you, d, draw);
    } else {
      HearOther(me, you, d, draw);
    }
  }

  /** The answer to the packet that is due is the next packet of my script. */
  lemma AnswerSends(me: Side, you: Side, s: nat)
    requires me.record.Some?
    ensures Sends(Answer(me, you, s)) == if s < 3 then [Script(me, you)[s + 1]] else []
    ensures Drawn(Answer(me, you, s)) == if s == 1 then [me.record.value.tx] else []
  {
    var a := Answer(me, you, s);
    if s == 0 {
      ShortLogs(a[0], a[0]);
    } else if s < 3 {
      assert a == [a[0], a[1]];
      ShortLogs(a[0], a[1]);
    }
  }

  lemma GreetingSends(me: Side, you: Side, d: Datagram)
    ensures Sends(Greeting(me, you, d)) == if me.record.None? && !d.Sealed? then [Script(me, you)[0]] else []
    ensures Drawn(Greeting(me, you, d)) == []
  {
    ShortLogs(Sent(Peer(you.at), Script(me, you)[0]), Sent(Peer(you.at), Script(me, you)[0]));
  }

  /** What I send in that turn is the next stretch of my script. */
  lemma AdvanceSends(me: Side, me': Side, you: Side, d: Datagram, events: seq<Event>)
    requires me'.who == me.who && Advances(me, me', you, d, events)
    requires IsChatter(you, d) || OnScript(you, me, d)
    ensures SentCount(me) <= SentCount(me')
    ensures Sends(events) == Script(me', you)[SentCount(me)..SentCount(me')]
    ensures Drawn(events) == if Stage(me.record) < 2 <= Stage(me'.record) then [me'.record.value.tx] else []
  {
    var s := Stage(me.record);
    var due := Due(me, you, d);
    var hello, rest := Greeting(me, you, d), if due then Answer(me', you, s) else [];
    GreetingSends(me, you, d);
    assert Sends([]) == [] && Drawn([]) == [];
    hide Sends, Drawn, Answer, Greeting, Step;
    assert Sends(rest) == (if due && s < 3 then [Script(me', you)[s + 1]] else [])
        && Drawn(rest) == (if due && s == 1 then [me'.record.value.tx] else []) by {
      if due {
        AnswerSends(me', you, s);
      }
    }
    LogsAppend(hello, rest);
    Stretch(Script(me', you), me.record.Some?, me'.record.Some?, s, due);
  }

  /** The greeting, if any, and the answer, if any, are consecutive. */
  lemma Stretch(script: seq<Datagram>, knew: bool, knows: bool, s: nat, due: bool)
    requires |script| == 4 && (knew ==> knows) && (s > 0 ==> knew) && (due ==> knows)
    ensures var n, n' := (if knew then 1 else 0) + Min(3, s),
                         (if knows then 1 else 0) + Min(3, if due then s + 1 else s);
      && n <= n' <= 4
      && (if knows && !knew then [script[0]] else []) + (if due && s < 3 then [script[s + 1]] else []) == script[n..n']
  {
  }

  /** The next stretch of the script may join the wire. */
  lemma CarriesMore(chat: Datagram, script: seq<Datagram>, script': seq<Datagram>, lo: nat, hi: nat, hi': nat,
                    wire: seq<Datagram>)
    requires Carries(chat, script, lo, hi, wire) && Step(chat) == 4
    requires lo <= hi <= hi' <= |script'| == |script| == 4 && script'[..hi] == script[..hi]
    requires forall k :: 0 <= k < |script'| ==> Step(script'[k]) == k
    ensures Carries(chat, script', lo, hi', wire + script'[hi..hi'])
  {
    var wire' := wire + script'[hi..hi'];
    forall i | 0 <= i < |wire'|
      ensures wire'[i] == chat || Fits(script', lo, hi', wire'[i])
      ensures i >= |wire| ==> Step(wire'[i]) == hi + i - |wire|
      ensures i < |wire| && wire'[i] != chat ==> Step(wire'[i]) < hi
    {
      if i < |wire| {
        assert wire'[i] == wire[i];
        if wire[i] != chat {
          assert script'[..hi][Step(wire[i])] == script[..hi][Step(wire[i])];
        }
      } else {
        assert wire'[i] == script'[hi + i - |wire|];
      }
    }
  }

  /** A packet may leave the wire; if it was the lowest, the floor rises. */
  lemma CarriesLess(chat: Datagram, script: seq<Datagram>, lo: nat, hi: nat, wire: seq<Datagram>, k: nat, lo': nat)
    requires Carries(chat, script, lo, hi, wire) && k < |wire|
    requires lo' == if wire[k] != chat && Step(wire[k]) == lo then lo + 1 else lo
    ensures Carries(chat, script, lo', hi, Without(wire, k))
  {
    var wire' := Without(wire, k);
    forall i | 0 <= i < |wire'|
      ensures wire'[i] == wire[if i < k then i else i + 1]
      ensures wire'[i] == chat || Fits(script, lo', hi, wire'[i])
    {
      var j := if i < k then i else i + 1;
      assert wire'[i] == wire[j];
      assert wire[j] == chat || wire[j] != wire[k];
    }
  }

  lemma AdvanceKeepsAligned(me: Side, me': Side, you: Side, d: Datagram, events: seq<Event>)
    requires Aligned(me, you) && Aligned(you, me)
    requires me'.who == me.who && me'.at == me.at && Advances(me, me', you, d, events)
    requires IsChatter(you, d) || OnScript(you, me, d)
    ensures Aligned(me', you) && Aligned(you, me')
  {
  }

  /** Handing over any one datagram, and taking it off the wire, keeps both sides in order. */
  lemma DeliverKeepsOrderly(me: Side, you: Side, k: nat, draw: nat)
    requires MutuallyOrderly(me, you) && me.who.id != you.who.id && k < |you.wire|
    ensures MutuallyOrderly(Hear(me, you.at, you.wire[k], draw), Drop(you, k))
    ensures Advances(me, Hear(me, you.at, you.wire[k], draw), you, you.wire[k],
                     React(me.who, you.at, me.record, you.wire[k], draw).events)
  {
    var d := you.wire[k];
    var me', you' := Hear(me, you.at, d, draw), Drop(you, k);
    var events := React(me.who, you.at, me.record, d, draw).events;
    HearAdvances(me, you, d, draw);
    TurnKeepsOrderly(me, me', you, k, events);
  }

  lemma TurnKeepsOrderly(me: Side, me': Side, you: Side, k: nat, events: seq<Event>)
    requires MutuallyOrderly(me, you) && k < |you.wire|
    requires Advances(me, me', you, you.wire[k], events)
    requires me' == me.(record := me'.record, wire := me.wire + Sends(events), log := me.log + events)
    ensures MutuallyOrderly(me', Drop(you, k))
  {
    var d, you' := you.wire[k], Drop(you, k);
    assert Aligned(me', you') && Aligned(you', me') by {
      AdvanceKeepsAligned(me, me', you, d, events);
    }
    assert Orderly(me', you') by {
      AdvanceSends(me, me', you, d, events);
      AdvanceKeepsPrefix(me, me', you, d, events);
      TurnKeepsMine(me, me', you, events);
    }
    TurnKeepsYours(me, me', you, k);
  }

  lemma TurnKeepsYours(me: Side, me': Side, you: Side, k: nat)
    requires Orderly(you, me) && k < |you.wire| && Aligned(you, me') && me'.who == me.who && me'.at == me.at
    requires Stage(me'.record) == Stage(me.record) + (if Due(me, you, you.wire[k]) then 1 else 0)
    ensures Orderly(Drop(you, k), me')
  {
    var chat := Announcement(you.who.id);
    assert Carries(chat, Script(you, me), Stage(me'.record), SentCount(you), Without(you.wire, k)) by {
      CarriesLess(chat, Script(you, me), Stage(me.record), SentCount(you), you.wire, k, Stage(me'.record));
    }
  }

  lemma AdvanceKeepsPrefix(me: Side, me': Side, you: Side, d: Datagram, events: seq<Event>)
    requires me'.who == me.who && Advances(me, me', you, d, events)
    ensures Script(me', you)[..SentCount(me)] == Script(me, you)[..SentCount(me)]
  {
    if SentCount(me) >= 3 {
      assert me'.record.value.tx == me.record.value.tx;
    }
  }

  lemma TurnKeepsMine(me: Side, me': Side, you: Side, events: seq<Event>)
    requires Orderly(me, you) && Aligned(me', you)
    requires Script(me', you)[..SentCount(me)] == Script(me, you)[..SentCount(me)]
    requires Stage(me.record) >= 2 ==> Stage(me'.record) >= 2 && me'.record.value.tx == me.record.value.tx
    requires SentCount(me) <= SentCount(me')
    requires Sends(events) == Script(me', you)[SentCount(me)..SentCount(me')]
    requires Drawn(events) == if Stage(me.record) < 2 <= Stage(me'.record) then [me'.record.value.tx] else []
    requires me' == me.(record := me'.record, wire := me.wire + Sends(events), log := me.log + events)
    ensures Orderly(me', you)
  {
    var script, script', n, n' := Script(me, you), Script(me', you), SentCount(me), SentCount(me');
    LogsAppend(me.log, events);
    Glue(script, script', 0, n, n');
    assert Carries(Announcement(me.who.id), script', Stage(you.record), n', me'.wire) by {
      StepsOfScript(me', you);
      CarriesMore(Announcement(me.who.id), script, script', Stage(you.record), n, n', me.wire);
    }
  }

  lemma SayKeepsOrderly(me: Side, you: Side)
    requires MutuallyOrderly(me, you)
    ensures MutuallyOrderly(Say(me, Announcement(me.who.id)), you)
  {
    var chat, script := Announcement(me.who.id), Script(me, you);
    var me' := Say(me, chat);
    assert Carries(chat, script, Stage(you.record), SentCount(me), me.wire + [chat]);
    assert Orderly(me', you) by { assert Script(me', you) == script; }
    assert Orderly(you, me') by { assert Script(you, me') == Script(you, me); }
  }

  lemma DropKeepsOrderly(me: Side, you: Side, k: nat)
    requires MutuallyOrderly(me, you) && k < |me.wire|
    ensures MutuallyOrderly(Drop(me, k), you)
  {
    var chat, script, hi := Announcement(me.who.id), Script(me, you), SentCount(me);
    var lo := Stage(you.record);
    var lo' := if me.wire[k] != chat && Step(me.wire[k]) == lo then lo + 1 else lo;
    CarriesLess(chat, script, lo, hi, me.wire, k, lo');
    assert Carries(chat, script, lo, hi, Without(me.wire, k));
    assert Script(Drop(me, k), you) == script && Script(you, Drop(me, k)) == Script(you, me);
  }

  // ---------------------------------------------------------------------------------------------
  // Handshake packets still travelling

  /** The packets of the handshake on a wire, in order. */
  function Pending(wire: seq<Datagram>): seq<Datagram> {
    if wire == [] then [] else (if Step(wire[0]) < 4 then [wire[0]] else []) + Pending(wire[1..])
  }

  lemma {:induction false} PendingAppend(a: seq<Datagram>, b: seq<Datagram>)
    ensures Pending(a + b) == Pending(a) + Pending(b)
  {
    if a == [] {
      assert a + b == b;
    } else {
      hide Step;
      assert (a + b)[1..] == a[1..] + b;
      PendingAppend(a[1..], b);
    }
  }

  lemma {:induction false} PendingAll(wire: seq<Datagram>)
    requires forall i :: 0 <= i < |wire| ==> Step(wire[i]) < 4
    ensures Pending(wire) == wire
  {
    if wire != [] {
      PendingAll(wire[1..]);
    }
  }

  lemma PendingWithout(wire: seq<Datagram>, k: nat)
    requires k < |wire|
    ensures |Pending(Without(wire, k))| + (if Step(wire[k]) < 4 then 1 else 0) == |Pending(wire)|
  {
    assert wire == wire[..k] + ([wire[k]] + wire[k + 1..]);
    PendingAppend(wire[..k], [wire[k]] + wire[k + 1..]);
    PendingAppend([wire[k]], wire[k + 1..]);
    PendingAppend(wire[..k], wire[k + 1..]);
    assert [wire[k]][1..] == [];
  }

  /** One turn adds exactly what it sends to the packets of mine that travel. */
  lemma TurnAddsPending(me: Side, me': Side, you: Side, d: Datagram, events: seq<Event>)
    requires me'.who == me.who && Advances(me, me', you, d, events)
    requires IsChatter(you, d) || OnScript(you, me, d)
    ensures SentCount(me) <= SentCount(me')
    ensures Pending(me.wire + Sends(events)) == Pending(me.wire) + Script(me', you)[SentCount(me)..SentCount(me')]
  {
    AdvanceSends(me, me', you, d, events);
    PendingAppend(me.wire, Sends(events));
    StepsOfScript(me', you);
    PendingAll(Sends(events));
  }

  lemma StepsOfScript(me: Side, you: Side)
    ensures forall k :: 0 <= k < 4 ==> Step(Script(me, you)[k]) == k
  {
  }

  /** Packet `k` of my script has been sent, has not been taken in, and no longer travels: it was
      lost, or it arrived out of turn and was ignored. */
  ghost predicate Missing(me: Side, you: Side, k: nat) {
    && Stage(you.record) <= k < SentCount(me)
    && forall i :: 0 <= i < |me.wire| ==> Step(me.wire[i]) != k
  }

  /** Every packet I have sent has been taken in or still travels. */
  ghost predicate NoneMissing(me: Side, you: Side) {
    forall k :: !Missing(me, you, k)
  }

  lemma HearKeepsMissing(me: Side, you: Side, i: nat, draw: nat, k: nat)
    requires MutuallyOrderly(me, you) && me.who.id != you.who.id && i < |you.wire|
    requires Missing(me, you, k)
    ensures Missing(Hear(me, you.at, you.wire[i], draw), Drop(you, i), k)
  {
    hide React;
    StillMissing(me, you, i, draw, k);
  }

  lemma StillMissing(me: Side, you: Side, i: nat, draw: nat, k: nat)
    requires Aligned(me, you) && Aligned(you, me) && me.who.id != you.who.id && i < |you.wire|
    requires IsChatter(you, you.wire[i]) || OnScript(you, me, you.wire[i])
    requires Missing(me, you, k)
    ensures Missing(Hear(me, you.at, you.wire[i], draw), Drop(you, i), k)
  {
    var d := you.wire[i];
    var events := React(me.who, you.at, me.record, d, draw).events;
    var me' := Hear(me, you.at, d, draw);
    HearAdvances(me, you, d, draw);
    AdvanceSends(me, me', you, d, events);
    SendsAvoid(me, me', you, Sends(events), k);
  }

  lemma SendsAvoid(me: Side, me': Side, you: Side, sends: seq<Datagram>, k: nat)
    requires Missing(me, you, k) && SentCount(me) <= SentCount(me')
    requires me'.wire == me.wire + sends && sends == Script(me', you)[SentCount(me)..SentCount(me')]
    ensures forall i :: 0 <= i < |me'.wire| ==> Step(me'.wire[i]) != k
  {
    StepsOfScript(me', you);
    forall j | 0 <= j < |sends| ensures Step(sends[j]) != k {
      assert sends[j] == Script(me', you)[SentCount(me) + j];
    }
    JoinSteps(me.wire, sends, k);
  }

  lemma TakeKeepsMissing(me: Side, you: Side, i: nat, draw: nat, k: nat)
    requires MutuallyOrderly(me, you) && me.who.id != you.who.id && i < |you.wire|
    requires Missing(you, me, k)
    ensures Missing(Drop(you, i), Hear(me, you.at, you.wire[i], draw), k)
  {
    DeliverKeepsOrderly(me, you, i, draw);
    DropKeepsMissing(you, me, i, k);
  }

  lemma JoinSteps(a: seq<Datagram>, b: seq<Datagram>, k: nat)
    requires forall i :: 0 <= i < |a| ==> Step(a[i]) != k
    requires forall i :: 0 <= i < |b| ==> Step(b[i]) != k
    ensures forall i :: 0 <= i < |a + b| ==> Step((a + b)[i]) != k
  {
  }

  lemma DropKeepsMissing(me: Side, you: Side, i: nat, k: nat)
    requires Missing(me, you, k) && i < |me.wire|
    ensures Missing(Drop(me, i), you, k)
  {
    forall j | 0 <= j < |Drop(me, i).wire| ensures Step(Drop(me, i).wire[j]) != k {
      assert Drop(me, i).wire[j] == me.wire[if j < i then j else j + 1];
    }
  }

  lemma SayKeepsMissing(me: Side, you: Side, k: nat)
    requires Missing(me, you, k)
    ensures Missing(Say(me, Announcement(me.who.id)), you, k)
  {
    JoinSteps(me.wire, [Announcement(me.who.id)], k);
  }

  /** What happens on your wire alone makes no difference. */
  lemma YourWireKeepsMissing(me: Side, you: Side, wire: seq<Datagram>, k: nat)
    requires Missing(me, you, k)
    ensures Missing(me, you.(wire := wire), k)
  {
  }

  /** With nothing travelling, either your record is as far as my sends, or something is missing. */
  lemma QuietSide(me: Side, you: Side)
    requires Orderly(me, you) && Pending(me.wire) == []
    ensures NoneMissing(me, you) <==> Stage(you.record) == SentCount(me)
  {
    NothingOnStep(me.wire);
    if NoneMissing(me, you) {
      assert !Missing(me, you, Stage(you.record));
    }
  }

  lemma QuietPair(a: Side, b: Side)
    requires MutuallyOrderly(a, b) && Pending(a.wire) == [] && Pending(b.wire) == []
    requires a.record.Some? || b.record.Some?
    ensures Stage(a.record) == 4 && Stage(b.record) == 4
       <==> NoneMissing(a, b) && NoneMissing(b, a)
  {
    QuietSide(a, b);
    QuietSide(b, a);
  }

  lemma {:induction false} NothingOnStep(wire: seq<Datagram>)
    requires Pending(wire) == []
    ensures forall i :: 0 <= i < |wire| ==> Step(wire[i]) >= 4
  {
    if wire != [] {
      NothingOnStep(wire[1..]);
    }
  }

  // ---------------------------------------------------------------------------------------------
  // Reliable, in-order networks

  /** My packets that travel are exactly the ones you have still to take in, in order. */
  predicate InLine(me: Side, you: Side) {
    && Stage(you.record) <= SentCount(me)
    && Pending(me.wire) == Script(me, you)[Stage(you.record)..SentCount(me)]
  }

  predicate MutuallyInLine(a: Side, b: Side) {
    MutuallyOrderly(a, b) && InLine(a, b) && InLine(b, a)
  }

  /** The handshake packet at the head of your wire is the one I wait for. */
  lemma HeadIsDue(me: Side, you: Side)
    requires MutuallyInLine(me, you) && you.wire != [] && Step(you.wire[0]) < 4
    ensures Due(me, you, you.wire[0])
  {
    assert Pending(you.wire)[0] == you.wire[0];
  }

  /** In order, every handshake packet handed over moves the receiver on by one. */
  lemma HeadCounts(me: Side, you: Side, draw: nat)
    requires MutuallyInLine(me, you) && me.who.id != you.who.id && you.wire != []
    ensures Stage(Hear(me, you.at, you.wire[0], draw).record)
         == Stage(me.record) + (if Step(you.wire[0]) < 4 then 1 else 0)
  {
    HearAdvances(me, you, you.wire[0], draw);
    if Step(you.wire[0]) < 4 {
      HeadIsDue(me, you);
    }
  }

  lemma DeliverKeepsInLine(me: Side, you: Side, draw: nat)
    requires MutuallyInLine(me, you) && me.who.id != you.who.id && you.wire != []
    ensures MutuallyInLine(Hear(me, you.at, you.wire[0], draw), Drop(you, 0))
  {
    var d := you.wire[0];
    var me', you' := Hear(me, you.at, d, draw), Drop(you, 0);
    var events := React(me.who, you.at, me.record, d, draw).events;
    DeliverKeepsOrderly(me, you, 0, draw);
    if Step(d) < 4 {
      HeadIsDue(me, you);
    }
    TurnAddsPending(me, me', you, d, events);
    AdvanceKeepsPrefix(me, me', you, d, events);
    TurnKeepsInLine(me, me', you, events);
  }

  lemma TurnKeepsInLine(me: Side, me': Side, you: Side, events: seq<Event>)
    requires InLine(me, you) && InLine(you, me) && you.wire != []
    requires Stage(me'.record) <= SentCount(you) && SentCount(me) <= SentCount(me')
    requires Stage(me'.record) == Stage(me.record) + (if Step(you.wire[0]) < 4 then 1 else 0)
    requires Pending(me'.wire) == Pending(me.wire) + Script(me', you)[SentCount(me)..SentCount(me')]
    requires Script(me', you)[..SentCount(me)] == Script(me, you)[..SentCount(me)]
    requires me'.who == me.who
    ensures InLine(me', Drop(you, 0)) && InLine(Drop(you, 0), me')
  {
    var you' := Drop(you, 0);
    assert InLine(me', you') by {
      assert Script(me', you') == Script(me', you);
      Glue(Script(me, you), Script(me', you), Stage(you.record), SentCount(me), SentCount(me'));
    }
    TakeHead(me, me', you);
  }

  lemma TakeHead(me: Side, me': Side, you: Side)
    requires InLine(you, me) && you.wire != [] && me'.who == me.who
    requires Stage(me'.record) == Stage(me.record) + (if Step(you.wire[0]) < 4 then 1 else 0)
    ensures InLine(Drop(you, 0), me')
  {
    var script, n, rest := Script(you, me), SentCount(you), you.wire[1..];
    assert Drop(you, 0).wire == rest;
    assert Script(Drop(you, 0), me') == script;
    assert Pending(you.wire) == (if Step(you.wire[0]) < 4 then [you.wire[0]] else []) + Pending(rest);
    hide Pending, Step, Script;
    if Step(you.wire[0]) < 4 {
      assert Pending(rest) == Pending(you.wire)[1..];
    }
  }

  lemma Glue<T>(s: seq<T>, s': seq<T>, lo: nat, n: nat, n': nat)
    requires lo <= n <= n' <= |s'| == |s| && s'[..n] == s[..n]
    ensures s[lo..n] + s'[n..n'] == s'[lo..n']
  {
    assert s[lo..n] == s[..n][lo..];
    assert s'[lo..n] == s'[..n][lo..];
  }

  lemma SayKeepsInLine(me: Side, you: Side)
    requires MutuallyInLine(me, you)
    ensures MutuallyInLine(Say(me, Announcement(me.who.id)), you)
  {
    var chat := Announcement(me.who.id);
    SayKeepsOrderly(me, you);
    PendingAppend(me.wire, [chat]);
    assert [chat][1..] == [];
    assert Script(Say(me, chat), you) == Script(me, you) && Script(you, Say(me, chat)) == Script(you, me);
  }

  /** With nothing of the handshake travelling either way, and one of us knowing the other, both
      have finished. */
  lemma QuietMeansConnected(a: Side, b: Side)
    requires MutuallyInLine(a, b) && (a.record.Some? || b.record.Some?)
    requires Pending(a.wire) == [] && Pending(b.wire) == []
    ensures Stage(a.record) == 4 && Stage(b.record) == 4
    ensures a.record.value.rx == b.record.value.tx && b.record.value.rx == a.record.value.tx
  {
    assert |Script(a, b)[Stage(b.record)..SentCount(a)]| == 0 && |Script(b, a)[Stage(a.record)..SentCount(b)]| == 0;
  }
}
