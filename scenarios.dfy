/**
 * Concrete poll traces: the edge-triggered behaviour of `twitch_info_requested`
 * on small runs, computed from the model.
 */
module Scenarios {

  import opened Wrappers
  import opened Notifier
  import opened Poller

  const Offline: Response := Response(Some([]))
  const Missing: Response := Response(None)
  const ArthlightLive: Response := Response(Some([Entry(Some("arthlight"))]))
  const DpsosirisLive: Response := Response(Some([Entry(Some("dpsOsiris"))]))

  /** One cycle over a single streamer. */
  lemma SingleCycle(c: int, r: Response)
    ensures CountsAfter([c], [r]) == [StepCount(c, r)]
    ensures Tags(Notices([c], [r])) == Tags(NoticeAt([c], [r], 0))
  {
    assert NoticesUpTo([c], [r], 1) == NoticesUpTo([c], [r], 0) + NoticeAt([c], [r], 0);
  }

  /** One cycle over two streamers: slot 0 is handled before slot 1. */
  lemma PairCycle(c0: int, c1: int, r0: Response, r1: Response)
    ensures CountsAfter([c0, c1], [r0, r1]) == [StepCount(c0, r0), StepCount(c1, r1)]
    ensures Tags(Notices([c0, c1], [r0, r1]))
            == Tags(NoticeAt([c0, c1], [r0, r1], 0)) + Tags(NoticeAt([c0, c1], [r0, r1], 1))
  {
    var cs, rs := [c0, c1], [r0, r1];
    assert NoticesUpTo(cs, rs, 1) == NoticesUpTo(cs, rs, 0) + NoticeAt(cs, rs, 0);
    assert NoticesUpTo(cs, rs, 2) == NoticesUpTo(cs, rs, 1) + NoticeAt(cs, rs, 1);
    TagsAppend(NoticeAt(cs, rs, 0), NoticeAt(cs, rs, 1));
  }

  /** Offline, online, online, offline, online: two notifications, at the two rising edges. */
  lemma OneNotificationPerStreak()
    ensures TagsAfterCycles([0], [[Offline], [ArthlightLive], [ArthlightLive], [Missing], [ArthlightLive]], 1) == []
    ensures TagsAfterCycles([0], [[Offline], [ArthlightLive], [ArthlightLive], [Missing], [ArthlightLive]], 2) == [ArthlightTag]
    ensures TagsAfterCycles([0], [[Offline], [ArthlightLive], [ArthlightLive], [Missing], [ArthlightLive]], 3) == [ArthlightTag]
    ensures TagsAfterCycles([0], [[Offline], [ArthlightLive], [ArthlightLive], [Missing], [ArthlightLive]], 4) == [ArthlightTag]
    ensures TagsAfterCycles([0], [[Offline], [ArthlightLive], [ArthlightLive], [Missing], [ArthlightLive]], 5)
            == [ArthlightTag, ArthlightTag]
    ensures CountsAfterCycles([0], [[Offline], [ArthlightLive], [ArthlightLive], [Missing], [ArthlightLive]], 5) == [1]
  {
    var cycles := [[Offline], [ArthlightLive], [ArthlightLive], [Missing], [ArthlightLive]];
    assert Live(ArthlightLive) && FirstUserName(ArthlightLive) == Some("arthlight");
    SingleCycle(0, Offline);
    assert CountsAfterCycles([0], cycles, 1) == [0] && TagsAfterCycles([0], cycles, 1) == [];
    SingleCycle(0, ArthlightLive);
    assert CountsAfterCycles([0], cycles, 2) == [1] && TagsAfterCycles([0], cycles, 2) == [ArthlightTag];
    SingleCycle(1, ArthlightLive);
    assert CountsAfterCycles([0], cycles, 3) == [1] && TagsAfterCycles([0], cycles, 3) == [ArthlightTag];
    SingleCycle(1, Missing);
    assert CountsAfterCycles([0], cycles, 4) == [0] && TagsAfterCycles([0], cycles, 4) == [ArthlightTag];
    SingleCycle(0, ArthlightLive);
  }

  /**
   * Two streamers: both offline, then A online, then unchanged, then A
   * offline and B online: one delivery for A, later one for B.
   */
  lemma TwoStreamers()
    ensures TagsAfterCycles(InitialCounts,
              [[Offline, Offline], [ArthlightLive, Offline], [ArthlightLive, Offline], [Offline, DpsosirisLive]], 1) == []
    ensures TagsAfterCycles(InitialCounts,
              [[Offline, Offline], [ArthlightLive, Offline], [ArthlightLive, Offline], [Offline, DpsosirisLive]], 2) == [ArthlightTag]
    ensures TagsAfterCycles(InitialCounts,
              [[Offline, Offline], [ArthlightLive, Offline], [ArthlightLive, Offline], [Offline, DpsosirisLive]], 3) == [ArthlightTag]
    ensures TagsAfterCycles(InitialCounts,
              [[Offline, Offline], [ArthlightLive, Offline], [ArthlightLive, Offline], [Offline, DpsosirisLive]], 4)
            == [ArthlightTag, DpsosirisTag]
  {
    var cycles := [[Offline, Offline], [ArthlightLive, Offline], [ArthlightLive, Offline], [Offline, DpsosirisLive]];
    assert Live(ArthlightLive) && FirstUserName(ArthlightLive) == Some("arthlight");
    assert Live(DpsosirisLive) && FirstUserName(DpsosirisLive) == Some("dpsOsiris");
    PairCycle(0, 0, Offline, Offline);
    assert CountsAfterCycles(InitialCounts, cycles, 1) == [0, 0];
    assert TagsAfterCycles(InitialCounts, cycles, 1) == [];
    PairCycle(0, 0, ArthlightLive, Offline);
    assert CountsAfterCycles(InitialCounts, cycles, 2) == [1, 0];
    assert TagsAfterCycles(InitialCounts, cycles, 2) == [ArthlightTag];
    PairCycle(1, 0, ArthlightLive, Offline);
    assert CountsAfterCycles(InitialCounts, cycles, 3) == [1, 0];
    assert TagsAfterCycles(InitialCounts, cycles, 3) == [ArthlightTag];
    PairCycle(1, 0, Offline, DpsosirisLive);
  }

  /** The tag follows the reported user name, not the slot: slot 0 reporting dpsOsiris yields dpsosiris. */
  lemma TagFollowsUserName()
    ensures Tags(Notices(InitialCounts, [DpsosirisLive, Offline])) == [DpsosirisTag]
    ensures CountsAfter(InitialCounts, [DpsosirisLive, Offline]) == [1, 0]
  {
    assert Live(DpsosirisLive) && FirstUserName(DpsosirisLive) == Some("dpsOsiris");
    PairCycle(0, 0, DpsosirisLive, Offline);
  }

  /** A live response with any other user name, here differently capitalised, is ignored. */
  lemma UnrecognisedNameIgnored()
    ensures Tags(Notices(InitialCounts, [Response(Some([Entry(Some("Arthlight"))])), Offline])) == []
    ensures CountsAfter(InitialCounts, [Response(Some([Entry(Some("Arthlight"))])), Offline]) == [0, 0]
  {
    var other := Response(Some([Entry(Some("Arthlight"))]));
    assert Live(other) && FirstUserName(other) == Some("Arthlight");
    assert "Arthlight"[0] != "arthlight"[0];
    PairCycle(0, 0, other, Offline);
  }
}
