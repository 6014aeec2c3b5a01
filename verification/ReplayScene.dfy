/** A run that shows what a replayed PublicKeyRequest breaks: both processes are Connected and their
    keys agree; at its end both are Connected again, and their keys do not. */
module ReplayScene {
  import opened Options
  import opened PeerProtocol
  import opened Sides
  import opened World
  import opened Runs
  import opened HandshakeTheorems
  import opened Resets
  import opened Scenes

  /** A datagram handed over for the last time, or with a copy kept. */
  function Last(src: Addr, i: nat, draw: nat): Move
    requires src < 2
  {
    Deliver(Link(src, 1 - src), i, draw)
  }

  function Again(src: Addr, i: nat, draw: nat): Move
    requires src < 2
  {
    Replay(Link(src, 1 - src), i, draw)
  }

  /** How process 1 has come along, and process 0, with the key it draws first and then again. */
  const NEW1 := Rec1(Initialised, None, Unset, Unset)
  const ASKED1 := Rec1(KeyExchange, None, Unset, Unset)
  const DRAWN1 := Rec1(Handshake, Some(10), Bits(7), Unset)
  const OPENED1 := Rec1(CheckEncryption, Some(10), Bits(7), Bits(8))
  const DONE1 := Rec1(Connected, Some(10), Bits(7), Bits(8))

  const ASKED0 := Rec0(KeyExchange, None, Unset, Unset)
  const DRAWN0 := Rec0(Handshake, Some(20), Bits(8), Unset)
  const OPENED0 := Rec0(CheckEncryption, Some(20), Bits(8), Bits(7))
  const DONE0 := Rec0(Connected, Some(20), Bits(8), Bits(7))
  const RESET0 := Rec0(KeyExchange, Some(20), Bits(8), Bits(7))
  const REDRAWN0 := Rec0(Handshake, Some(20), Bits(9), Bits(7))
  const REOPENED0 := Rec0(CheckEncryption, Some(20), Bits(9), Bits(7))
  const REDONE0 := Rec0(Connected, Some(20), Bits(9), Bits(7))

  const ALL1 := [ASK1, REPLY1, Context1(7), Ready1(7)]

  const S1 := Scene(None, [CHAT0], None, [])
  const S2 := Scene(None, [], NEW1, [ASK1])
  const S3 := Scene(ASKED0, [ASK0, REPLY0], NEW1, [ASK1])
  const S4 := Scene(ASKED0, [REPLY0], ASKED1, [ASK1, REPLY1])
  const S5 := Scene(ASKED0, [], DRAWN1, [ASK1, REPLY1, Context1(7)])
  const S6 := Scene(DRAWN0, [Context0(8)], DRAWN1, [ASK1, REPLY1, Context1(7)])
  const S7 := Scene(OPENED0, [Context0(8), Ready0(8)], DRAWN1, [ASK1, REPLY1, Context1(7)])
  const S8 := Scene(OPENED0, [Ready0(8)], OPENED1, ALL1)
  const S9 := Scene(OPENED0, [], DONE1, ALL1)
  const S10 := Scene(DONE0, [], DONE1, ALL1)
  const S11 := Scene(RESET0, [REPLY0], DONE1, [REPLY1, Context1(7), Ready1(7)])
  const S12 := Scene(REDRAWN0, [REPLY0, Context0(9)], DONE1, [Context1(7), Ready1(7)])
  const S13 := Scene(REOPENED0, [REPLY0, Context0(9), Ready0(9)], DONE1, [Ready1(7)])
  const S14 := Scene(REDONE0, [REPLY0, Context0(9), Ready0(9)], DONE1, [])

  predicate Acts(s: Scene, m: Move, s': Scene) {
    Playable(Replaying, s, m) && Play(Replaying, s, m) == s'
  }

  lemma Acts1To4()
    ensures Acts(OPENING, Broadcast(0), S1) && Acts(S1, Last(0, 0, 0), S2)
    ensures Acts(S2, Again(1, 0, 0), S3) && Acts(S3, Last(0, 0, 0), S4)
  {
    Act(Replaying, S1, Last(0, 0, 0), NEW1, [Sent(Peer(0), ASK1)], S2);
    Act(Replaying, S2, Again(1, 0, 0), ASKED0, [Sent(Peer(1), ASK0), Sent(Peer(1), REPLY0)], S3);
    Act(Replaying, S3, Last(0, 0, 0), ASKED1, [Sent(Peer(0), REPLY1)], S4);
  }

  lemma Acts5To7()
    ensures Acts(S4, Last(0, 0, 7), S5) && Acts(S5, Again(1, 1, 8), S6) && Acts(S6, Again(1, 2, 0), S7)
  {
    Act(Replaying, S4, Last(0, 0, 7), DRAWN1, [Generated(Bits(7)), Sent(Peer(0), Context1(7))], S5);
    Act(Replaying, S5, Again(1, 1, 8), DRAWN0, [Generated(Bits(8)), Sent(Peer(1), Context0(8))], S6);
    Act(Replaying, S6, Again(1, 2, 0), OPENED0, [Decrypted(Bits(7)), Sent(Peer(1), Ready0(8))], S7);
  }

  lemma Acts8To10()
    ensures Acts(S7, Last(0, 0, 0), S8) && Acts(S8, Last(0, 0, 0), S9) && Acts(S9, Again(1, 3, 0), S10)
  {
    Act(Replaying, S7, Last(0, 0, 0), OPENED1, [Decrypted(Bits(8)), Sent(Peer(0), Ready1(7))], S8);
    Act(Replaying, S8, Last(0, 0, 0), DONE1, [], S9);
    Act(Replaying, S9, Again(1, 3, 0), DONE0, [], S10);
  }

  lemma Acts11To14()
    ensures Acts(S10, Last(1, 0, 0), S11) && Acts(S11, Last(1, 0, 9), S12)
    ensures Acts(S12, Last(1, 0, 0), S13) && Acts(S13, Last(1, 0, 0), S14)
  {
    Act(Replaying, S10, Last(1, 0, 0), RESET0, [Sent(Peer(1), REPLY0)], S11);
    Act(Replaying, S11, Last(1, 0, 9), REDRAWN0, [Generated(Bits(9)), Sent(Peer(1), Context0(9))], S12);
    Act(Replaying, S12, Last(1, 0, 0), REOPENED0, [Decrypted(Bits(7)), Sent(Peer(1), Ready0(9))], S13);
    Act(Replaying, S13, Last(1, 0, 0), REDONE0, [], S14);
  }

  const RUN := [Broadcast(0), Last(0, 0, 0), Again(1, 0, 0), Last(0, 0, 0), Last(0, 0, 7), Again(1, 1, 8),
                Again(1, 2, 0), Last(0, 0, 0), Last(0, 0, 0), Again(1, 3, 0)]
  const LATE := Last(1, 0, 0)
  const REST := [Last(1, 0, 9), Last(1, 0, 0), Last(1, 0, 0)]

  /** Each scene leads to the next by its move. */
  ghost predicate Played(scenes: seq<Scene>, moves: seq<Move>) {
    && |scenes| == |moves| + 1
    && forall i :: 0 <= i < |moves| ==> Acts(scenes[i], moves[i], scenes[i + 1])
  }

  lemma {:induction false} PerformAll(steps: seq<Move>, w: World, scenes: seq<Scene>, moves: seq<Move>)
    returns (w': World)
    requires Played(scenes, moves) && Now(Replaying, steps, w, scenes[0])
    ensures Now(Replaying, steps + moves, w', scenes[|moves|])
    decreases |moves|
  {
    hide Now, Apply, Play, Playable;
    if moves == [] {
      w' := w;
      assert steps + moves == steps;
    } else {
      assert Acts(scenes[0], moves[0], scenes[1]);
      Perform(Replaying, steps, w, scenes[0], moves[0]);
      w' := PerformAll(steps + [moves[0]], Apply(Replaying, w, moves[0]), scenes[1..], moves[1..]);
      assert steps + [moves[0]] + moves[1..] == steps + moves;
    }
  }

  /** A replayed request breaks both key agreement and monotone states: the two processes are
      Connected and agree; a late request takes process 0 back; three deliveries later both are
      Connected once more, but process 0 seals under a key that process 1 does not hold. */
  lemma ReplayBreaksAgreement() returns (w: World, w': World, w'': World)
    ensures Reached(Replaying, WHO, RUN, w) && BothConnected(w, 0, 1) && Agreed(w, 0, 1) && Agreed(w, 1, 0)
    ensures Enabled(Replaying, w, LATE) && ResetBy(w, LATE, 0, 1) && w' == Apply(Replaying, w, LATE)
    ensures Stage(Rec(w', 0, 1)) == Rank(KeyExchange) && !Agreed(w', 1, 0)
    ensures Reached(Replaying, WHO, RUN + [LATE] + REST, w'') && BothConnected(w'', 0, 1)
    ensures Rec(w'', 0, 1).value.tx != Rec(w'', 1, 0).value.rx
  {
    hide Now, Acts, Reached, Apply;
    Open(Replaying);
    Opening();
    w := PerformAll([], Init(WHO), [OPENING, S1, S2, S3, S4, S5, S6, S7, S8, S9, S10], RUN);
    assert [] + RUN == RUN;
    Acts11To14();
    NowMeans(Replaying, RUN, w, S10);
    w' := LateAct(w);
    NowMeans(Replaying, RUN + [LATE], w', S11);
    assert Played([S11, S12, S13, S14], REST);
    w'' := PerformAll(RUN + [LATE], w', [S11, S12, S13, S14], REST);
    NowMeans(Replaying, RUN + [LATE] + REST, w'', S14);
  }

  lemma Opening()
    ensures Played([OPENING, S1, S2, S3, S4, S5, S6, S7, S8, S9, S10], RUN)
  {
    hide Acts;
    Acts1To4();
    Acts5To7();
    Acts8To10();
  }

  lemma LateAct(w: World) returns (w': World)
    requires Now(Replaying, RUN, w, S10)
    ensures Enabled(Replaying, w, LATE) && ResetBy(w, LATE, 0, 1) && w' == Apply(Replaying, w, LATE)
    ensures Now(Replaying, RUN + [LATE], w', S11)
  {
    hide Play, Now, Apply, Shaped, Run, Sends;
    Acts11To14();
    Perform(Replaying, RUN, w, S10, LATE);
    NowMeans(Replaying, RUN, w, S10);
    w' := Apply(Replaying, w, LATE);
  }
}
