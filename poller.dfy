/**
 * The Twitch side of the bot: `twitch_info_requested`, the loop that polls
 * the stream status of every tracked streamer and notifies once per online
 * streak.
 *
 * Each tracked streamer has a counter (`streamer_count`), 0 while no
 * notification has been sent for the current streak. One poll cycle walks
 * the decoded status responses in index order and updates the counters in
 * place; the counters survive from one cycle to the next.
 *
 * The HTTP request and JSON decoding are not modelled: a cycle receives the
 * decoded responses, one per tracked streamer.
 */
module Poller {

  import opened Wrappers
  import opened Notifier

  /** One element of the `data` array of a status response. */
  datatype Entry = Entry(userName: Option<string>)

  /** A decoded status response; `data` is None when the key is missing or null. */
  datatype Response = Response(data: Option<seq<Entry>>)

  /** The tracked streamers, in polling order, and their initial counters. */
  const StreamerIds: seq<string> := [ArthlightTag, DpsosirisTag]
  const InitialCounts: seq<int> := [0, 0]

  /** Python truthiness of `response.get('data')`: present and non-empty. */
  predicate Live(r: Response) {
    r.data.Some? && |r.data.value| > 0
  }

  /** `response.get('data')[0].get('user_name')`. */
  function FirstUserName(r: Response): Option<string>
    requires Live(r)
  {
    r.data.value[0].userName
  }

  /**
   * The tag notified for a reported user name: it is derived from the
   * response, not from the position of the streamer in the list.
   */
  function TagFor(userName: Option<string>): (t: Option<string>)
    ensures t == Some(DpsosirisTag) <==> userName == Some("dpsOsiris")
    ensures t == Some(ArthlightTag) <==> userName == Some("arthlight")
    ensures t.Some? ==> KnownTag(t.value)
  {
    if userName == Some("dpsOsiris") then Some(DpsosirisTag)
    else if userName == Some("arthlight") then Some(ArthlightTag)
    else None
  }

  /** The response reports a stream whose user name has a tag. */
  predicate KnownUser(r: Response) {
    Live(r) && TagFor(FirstUserName(r)).Some?
  }

  /** The condition under which one streamer's step notifies. */
  predicate RisingEdge(count: int, r: Response) {
    KnownUser(r) && count < 1
  }

  /** The new counter of one streamer after its step. */
  function StepCount(count: int, r: Response): (c: int)
    ensures RisingEdge(count, r) ==> c == count + 1
    ensures c != count ==> RisingEdge(count, r) || (!Live(r) && count > 0 && c == 0)
  {
    if Live(r) && count < 1 then
      (if TagFor(FirstUserName(r)).Some? then count + 1 else count)
    else if !Live(r) && count > 0 then 0
    else count
  }

  /** The tag one streamer's step notifies, if any. */
  function StepTag(count: int, r: Response): (t: Option<string>)
    ensures t.Some? <==> RisingEdge(count, r)
    ensures t.Some? ==> t == TagFor(FirstUserName(r)) && KnownTag(t.value)
  {
    if Live(r) && count < 1 then TagFor(FirstUserName(r)) else None
  }

  /** The counters after one cycle: every counter sees only its own response. */
  function CountsAfter(counts: seq<int>, responses: seq<Response>): (r: seq<int>)
    requires |counts| == |responses|
    ensures |r| == |counts|
  {
    seq(|counts|, i requires 0 <= i < |counts| => StepCount(counts[i], responses[i]))
  }

  /** A notification together with the index of the response that caused it. */
  datatype Notice = Notice(index: nat, tag: string)

  function NoticeAt(counts: seq<int>, responses: seq<Response>, i: nat): seq<Notice>
    requires |counts| == |responses| && i < |counts|
  {
    match StepTag(counts[i], responses[i])
    case None => []
    case Some(t) => [Notice(i, t)]
  }

  /** The notifications of the first `n` steps of a cycle, in index order. */
  function NoticesUpTo(counts: seq<int>, responses: seq<Response>, n: nat): (ns: seq<Notice>)
    requires |counts| == |responses| && n <= |counts|
    ensures |ns| <= n
    ensures forall k :: 0 <= k < |ns| ==> ns[k].index < n
  {
    if n == 0 then [] else NoticesUpTo(counts, responses, n - 1) + NoticeAt(counts, responses, n - 1)
  }

  function Notices(counts: seq<int>, responses: seq<Response>): (ns: seq<Notice>)
    requires |counts| == |responses|
    ensures |ns| <= |counts|
    ensures forall k :: 0 <= k < |ns| ==> ns[k].index < |counts|
    ensures forall j, k :: 0 <= j < k < |ns| ==> ns[j].index < ns[k].index
  {
    NoticesOrdered(counts, responses, |counts|);
    NoticesUpTo(counts, responses, |counts|)
  }

  /** What leaves the cycle: the tags alone, in order. */
  function Tags(ns: seq<Notice>): seq<string> {
    seq(|ns|, k requires 0 <= k < |ns| => ns[k].tag)
  }

  predicate NotifiedAt(ns: seq<Notice>, i: nat) {
    exists k :: 0 <= k < |ns| && ns[k].index == i
  }

  predicate AllBinary(counts: seq<int>) {
    forall i :: 0 <= i < |counts| ==> counts[i] == 0 || counts[i] == 1
  }

  lemma TagsAppend(a: seq<Notice>, b: seq<Notice>)
    ensures Tags(a + b) == Tags(a) + Tags(b)
  {
    assert forall k :: 0 <= k < |a + b| ==> Tags(a + b)[k] == (Tags(a) + Tags(b))[k];
  }

  /** Every notification comes from a rising edge, and its tag from the reported user name. */
  lemma {:induction false} NoticesSound(counts: seq<int>, responses: seq<Response>, n: nat)
    requires |counts| == |responses| && n <= |counts|
    ensures forall k :: 0 <= k < |NoticesUpTo(counts, responses, n)| ==>
      var x := NoticesUpTo(counts, responses, n)[k];
      x.index < n && RisingEdge(counts[x.index], responses[x.index])
      && Some(x.tag) == TagFor(FirstUserName(responses[x.index]))
  {
    if n > 0 {
      NoticesSound(counts, responses, n - 1);
    }
  }

  /** Every rising edge among the first `n` steps is notified. */
  lemma {:induction false} NoticesComplete(counts: seq<int>, responses: seq<Response>, n: nat, i: nat)
    requires |counts| == |responses| && i < n <= |counts|
    requires RisingEdge(counts[i], responses[i])
    ensures NotifiedAt(NoticesUpTo(counts, responses, n), i)
  {
    var ns := NoticesUpTo(counts, responses, n);
    if i == n - 1 {
      assert ns[|ns| - 1].index == i;
    } else {
      NoticesComplete(counts, responses, n - 1, i);
      var prefix := NoticesUpTo(counts, responses, n - 1);
      var k :| 0 <= k < |prefix| && prefix[k].index == i;
      assert ns[k] == prefix[k];
    }
  }

  /** Notifications leave in strictly increasing index order, so at most one per streamer. */
  lemma {:induction false} NoticesOrdered(counts: seq<int>, responses: seq<Response>, n: nat)
    requires |counts| == |responses| && n <= |counts|
    ensures forall j, k :: 0 <= j < k < |NoticesUpTo(counts, responses, n)| ==>
      NoticesUpTo(counts, responses, n)[j].index < NoticesUpTo(counts, responses, n)[k].index
  {
    if n > 0 {
      NoticesOrdered(counts, responses, n - 1);
      NoticesSound(counts, responses, n - 1);
    }
  }

  /** A streamer is notified in a cycle exactly on a rising edge. */
  lemma NotifiedIff(counts: seq<int>, responses: seq<Response>, i: nat)
    requires |counts| == |responses| && i < |counts|
    ensures NotifiedAt(Notices(counts, responses), i) <==> RisingEdge(counts[i], responses[i])
  {
    NoticesSound(counts, responses, |counts|);
    if RisingEdge(counts[i], responses[i]) {
      NoticesComplete(counts, responses, |counts|, i);
    }
  }

  /** Counters that start at 0 or 1 stay at 0 or 1. */
  lemma CycleKeepsBinary(counts: seq<int>, responses: seq<Response>)
    requires |counts| == |responses| && AllBinary(counts)
    ensures AllBinary(CountsAfter(counts, responses))
  {
  }

  /** A notification means: data present, counter below 1 before, counter bumped after. */
  lemma NotifiedOnlyOnRisingEdge(counts: seq<int>, responses: seq<Response>, k: nat)
    requires |counts| == |responses| && k < |Notices(counts, responses)|
    ensures var i := Notices(counts, responses)[k].index;
      i < |counts| && Live(responses[i]) && counts[i] < 1
      && CountsAfter(counts, responses)[i] == counts[i] + 1
      && (counts[i] == 0 ==> CountsAfter(counts, responses)[i] == 1)
  {
    NoticesSound(counts, responses, |counts|);
  }

  /** Online again with a positive counter: no duplicate, counter unchanged. */
  lemma SustainedOnlineIsSilent(counts: seq<int>, responses: seq<Response>, i: nat)
    requires |counts| == |responses| && i < |counts|
    requires Live(responses[i]) && counts[i] > 0
    ensures !NotifiedAt(Notices(counts, responses), i)
    ensures CountsAfter(counts, responses)[i] == counts[i]
  {
    NotifiedIff(counts, responses, i);
  }

  /** Offline: no notification, and a positive counter is re-armed to 0. */
  lemma OfflineRearms(counts: seq<int>, responses: seq<Response>, i: nat)
    requires |counts| == |responses| && i < |counts|
    requires !Live(responses[i])
    ensures !NotifiedAt(Notices(counts, responses), i)
    ensures CountsAfter(counts, responses)[i] == (if counts[i] > 0 then 0 else counts[i])
    ensures counts[i] >= 0 ==> CountsAfter(counts, responses)[i] == 0
  {
    NotifiedIff(counts, responses, i);
  }

  /** Live data with an unrecognised user name is ignored altogether. */
  lemma UnknownUserIgnored(counts: seq<int>, responses: seq<Response>, i: nat)
    requires |counts| == |responses| && i < |counts|
    requires Live(responses[i]) && TagFor(FirstUserName(responses[i])) == None
    ensures !NotifiedAt(Notices(counts, responses), i)
    ensures CountsAfter(counts, responses)[i] == counts[i]
  {
    NotifiedIff(counts, responses, i);
  }

  /** Every tag the poller emits has a template, so the fallback text is never sent by it. */
  lemma CycleTagsKnown(counts: seq<int>, responses: seq<Response>)
    requires |counts| == |responses|
    ensures forall t :: t in Tags(Notices(counts, responses)) ==> KnownTag(t)
  {
    var ns := Notices(counts, responses);
    NoticesSound(counts, responses, |counts|);
    forall t | t in Tags(ns) ensures KnownTag(t) {
      var k :| 0 <= k < |ns| && Tags(ns)[k] == t;
      assert Some(t) == TagFor(FirstUserName(responses[ns[k].index]));
    }
  }

  /**
   * One iteration of the `while True` loop: walks the responses in index
   * order, updates the counters in place and returns the tags passed to
   * `message_sent`, in order.
   */
  method PollCycle(counts: array<int>, responses: seq<Response>) returns (sent: seq<string>)
    requires counts.Length == |responses|
    modifies counts
    ensures counts[..] == CountsAfter(old(counts[..]), responses)
    ensures sent == Tags(Notices(old(counts[..]), responses))
  {
    ghost var before := counts[..];
    sent := [];
    var index := 0;
    while index < |responses|
      invariant 0 <= index <= |responses|
      invariant forall k :: 0 <= k < index ==> counts[k] == StepCount(before[k], responses[k])
      invariant forall k :: index <= k < counts.Length ==> counts[k] == before[k]
      invariant sent == Tags(NoticesUpTo(before, responses, index))
    {
      TagsAppend(NoticesUpTo(before, responses, index), NoticeAt(before, responses, index));
      var response := responses[index];
      if Live(response) && counts[index] < 1 {
        var userName := response.data.value[0].userName;
        if userName == Some("dpsOsiris") {
          counts[index] := counts[index] + 1;
          sent := sent + [DpsosirisTag];
        } else if userName == Some("arthlight") {
          counts[index] := counts[index] + 1;
          sent := sent + [ArthlightTag];
        }
      } else if !Live(response) && counts[index] > 0 {
        counts[index] := 0;
      }
      index := index + 1;
    }
  }

  /** Every cycle carries one response per tracked streamer. */
  predicate WellShaped(n: nat, cycles: seq<seq<Response>>) {
    forall m :: 0 <= m < |cycles| ==> |cycles[m]| == n
  }

  /** The counters after the first `m` cycles. */
  function CountsAfterCycles(init: seq<int>, cycles: seq<seq<Response>>, m: nat): (r: seq<int>)
    requires WellShaped(|init|, cycles) && m <= |cycles|
    ensures |r| == |init|
  {
    if m == 0 then init else CountsAfter(CountsAfterCycles(init, cycles, m - 1), cycles[m - 1])
  }

  /** The tags notified during the first `m` cycles, in order. */
  function TagsAfterCycles(init: seq<int>, cycles: seq<seq<Response>>, m: nat): (tags: seq<string>)
    requires WellShaped(|init|, cycles) && m <= |cycles|
    ensures |tags| <= m * |init|
  {
    if m == 0 then []
    else TagsAfterCycles(init, cycles, m - 1)
         + Tags(Notices(CountsAfterCycles(init, cycles, m - 1), cycles[m - 1]))
  }

  /** The messages pushed to the channel for a sequence of tags. */
  function Deliver(tags: seq<string>, avatars: Avatars): (sent: seq<Message>)
    ensures |sent| == |tags|
    ensures forall k :: 0 <= k < |sent| ==> (sent[k].EmbedMessage? <==> KnownTag(tags[k]))
  {
    seq(|tags|, k requires 0 <= k < |tags| => MessageSent(tags[k], avatars))
  }

  lemma DeliverAppend(a: seq<string>, b: seq<string>, avatars: Avatars)
    ensures Deliver(a + b, avatars) == Deliver(a, avatars) + Deliver(b, avatars)
  {
    var lhs, rhs := Deliver(a + b, avatars), Deliver(a, avatars) + Deliver(b, avatars);
    assert |lhs| == |rhs|;
    forall k | 0 <= k < |lhs| ensures lhs[k] == rhs[k] {
      if k < |a| {
        assert (a + b)[k] == a[k];
      } else {
        assert (a + b)[k] == b[k - |a|];
      }
    }
  }

  /** One more cycle of the fold. */
  lemma RunStep(init: seq<int>, cycles: seq<seq<Response>>, m: nat)
    requires WellShaped(|init|, cycles) && m < |cycles|
    ensures CountsAfterCycles(init, cycles, m + 1) == CountsAfter(CountsAfterCycles(init, cycles, m), cycles[m])
    ensures TagsAfterCycles(init, cycles, m + 1)
            == TagsAfterCycles(init, cycles, m) + Tags(Notices(CountsAfterCycles(init, cycles, m), cycles[m]))
  {
  }

  /** Known tags are delivered as embeds only. */
  lemma DeliverKnown(tags: seq<string>, avatars: Avatars)
    requires forall t :: t in tags ==> KnownTag(t)
    ensures forall k :: 0 <= k < |Deliver(tags, avatars)| ==> Deliver(tags, avatars)[k].EmbedMessage?
  {
    forall k | 0 <= k < |tags| ensures Deliver(tags, avatars)[k].EmbedMessage? {
      assert tags[k] in tags;
    }
  }

  lemma {:induction false} RunTagsKnown(init: seq<int>, cycles: seq<seq<Response>>, m: nat)
    requires WellShaped(|init|, cycles) && m <= |cycles|
    ensures forall t :: t in TagsAfterCycles(init, cycles, m) ==> KnownTag(t)
  {
    if m > 0 {
      RunTagsKnown(init, cycles, m - 1);
      CycleTagsKnown(CountsAfterCycles(init, cycles, m - 1), cycles[m - 1]);
    }
  }

  /**
   * For one streamer whose live responses always name a known user and
   * whose counter starts at 0, the counter after `m` cycles is 1 exactly
   * when the last cycle saw the stream online.
   */
  lemma {:induction false} CounterTracksLiveness(init: seq<int>, cycles: seq<seq<Response>>, i: nat, m: nat)
    requires WellShaped(|init|, cycles) && i < |init| && init[i] == 0 && m <= |cycles|
    requires forall c :: 0 <= c < |cycles| ==> (Live(cycles[c][i]) ==> KnownUser(cycles[c][i]))
    ensures CountsAfterCycles(init, cycles, m)[i] == if m > 0 && Live(cycles[m - 1][i]) then 1 else 0
  {
    if m > 0 {
      CounterTracksLiveness(init, cycles, i, m - 1);
    }
  }

  /**
   * Edge-triggered notification: in cycle `m` the streamer is notified
   * exactly when it is online now and was offline in the previous cycle
   * (or there was none), so sustained online periods stay silent and each
   * online streak is announced once.
   */
  lemma EdgeTriggered(init: seq<int>, cycles: seq<seq<Response>>, i: nat, m: nat)
    requires WellShaped(|init|, cycles) && i < |init| && init[i] == 0 && m < |cycles|
    requires forall c :: 0 <= c < |cycles| ==> (Live(cycles[c][i]) ==> KnownUser(cycles[c][i]))
    ensures NotifiedAt(Notices(CountsAfterCycles(init, cycles, m), cycles[m]), i)
            <==> Live(cycles[m][i]) && (m == 0 || !Live(cycles[m - 1][i]))
  {
    CounterTracksLiveness(init, cycles, i, m);
    NotifiedIff(CountsAfterCycles(init, cycles, m), cycles[m], i);
  }

  /**
   * The whole polling loop over a finite run of cycles: counters start at
   * 0, each cycle updates them in place, and every notified tag becomes a
   * message pushed to the channel. None of them is the fallback text.
   */
  method Run(cycles: seq<seq<Response>>, avatars: Avatars) returns (sent: seq<Message>)
    requires WellShaped(|StreamerIds|, cycles)
    ensures sent == Deliver(TagsAfterCycles(InitialCounts, cycles, |cycles|), avatars)
    ensures forall k :: 0 <= k < |sent| ==> sent[k].EmbedMessage?
  {
    var counts := new int[|StreamerIds|](_ => 0);
    assert counts[..] == InitialCounts;
    sent := [];
    var m := 0;
    while m < |cycles|
      invariant 0 <= m <= |cycles|
      invariant counts.Length == |StreamerIds|
      invariant counts[..] == CountsAfterCycles(InitialCounts, cycles, m)
      invariant sent == Deliver(TagsAfterCycles(InitialCounts, cycles, m), avatars)
    {
      ghost var done := TagsAfterCycles(InitialCounts, cycles, m);
      var tags := PollCycle(counts, cycles[m]);
      RunStep(InitialCounts, cycles, m);
      DeliverAppend(done, tags, avatars);
      sent := sent + Deliver(tags, avatars);
      m := m + 1;
    }
    RunTagsKnown(InitialCounts, cycles, |cycles|);
    DeliverKnown(TagsAfterCycles(InitialCounts, cycles, |cycles|), avatars);
  }
}
