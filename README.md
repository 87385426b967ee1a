# Twitch go-live notifier for Discord, modelled in Dafny

The bot polls the Twitch stream-status API for two tracked streamers,
`arthlight` and `dpsosiris`, and sleeps 10 seconds after each poll cycle.
It posts a Discord embed to one fixed channel the first time each streamer
is seen online. It stays quiet for
the rest of that online streak. Per-streamer counters (`streamer_count`) make
the notification edge-triggered: a counter of 0 means "not yet announced",
and an offline response resets it to 0.

The project has four modules:

- `Wrappers` (`wrappers.dfy`): `Option`.
- `Notifier` (`notifier.dfy`): `embeds_created` and `message_sent` as pure
  functions over a plain embed record (title, description, RGB colour,
  footer, image, author, thumbnail, optional link field).
- `Poller` (`poller.dfy`): `twitch_info_requested`.
  - One poll cycle is the method `PollCycle`. It updates an `array<int>` of
    counters in place and returns the notified tags in order.
  - `PollCycle` is specified by `CountsAfter` and `Notices`.
  - The `while True` loop is modelled as a fold over a finite run of
    cycles (`CountsAfterCycles`, `TagsAfterCycles`) and as the method `Run`.
- `Scenarios` (`scenarios.dfy`): concrete poll traces.

A decoded status response is `Response(data: Option<seq<Entry>>)` with
`Entry(userName: Option<string>)`. A missing or null `data` key is `None`.
`Live` is Python's truthiness of `response.get('data')`, so a missing key
and an empty array both count as offline.

Details of the code the model keeps:

- The state is an integer counter compared with `< 1` and `> 0`, not a
  boolean.
- A live response whose first `user_name` is neither `dpsOsiris` nor
  `arthlight` changes nothing. The counter stays at 0, so the streamer is not
  marked as announced.
- The tag sent comes from the reported `user_name`, not from the streamer's
  slot in the list.
- `embeds_created` returns nothing (Python's `None`) for any other tag.
- The fallback text of `message_sent` is never reached from the poller, and
  `CycleTagsKnown` and `Run` prove this.

## Model

| member | source | states |
|---|---|---|
| `Notifier.EmbedsCreated` | main.py:76-125 | a template exists exactly for `arthlight` and `dpsosiris`; both share the footer, the author icon is that user's avatar, and only arthlight's has the link field |
| `Notifier.MessageSent` | main.py:173-185 | a known tag yields the embed that `embeds_created` builds for it; any other tag yields the fallback diagnostic text |
| `Notifier.TemplatesDiffer` | main.py:76-125 | colours (66,185,245) and (173,7,7), distinct titles, author names `Arthlight` and `dpsosiris`, shared footer, link field only for arthlight; `message_sent` picks each one's own embed |
| `Notifier.UnknownTagFallsBack` | main.py:179-185 | every other tag gets the fallback text, and `embeds_created` returns nothing for it |
| `Poller.TagFor` | main.py:152-157 | user name `dpsOsiris` maps to tag `dpsosiris`, `arthlight` to `arthlight`, anything else (including a missing name) to no tag |
| `Poller.StepCount` | main.py:151-160 | one streamer's counter is bumped by one on a rising edge; otherwise it changes only when offline with a positive value, and then to 0 |
| `Poller.StepTag` | main.py:151-157 | one streamer's step yields a tag exactly on a rising edge, and that tag is the known tag for the reported user name |
| `Poller.CountsAfter` | main.py:150-160 | one cycle keeps the number of counters, and each counter is updated from its own response only |
| `Poller.NoticesUpTo` | main.py:150-157 | the first n steps of a cycle give at most n notifications, each from one of those n indices |
| `Poller.Notices` | main.py:150-157 | a cycle gives at most one notification per tracked streamer: indices are in range and strictly increasing |
| `Poller.PollCycle` | main.py:150-160 | the in-place loop leaves exactly the counters `CountsAfter` gives and returns exactly the tags of `Notices`, in index order |
| `Poller.NoticesSound` | main.py:151-157 | every notification has a live response with a known user name and a counter below 1, and its tag is derived from that user name |
| `Poller.NoticesComplete` | main.py:151-157 | every streamer with a known user name online and a counter below 1 is notified |
| `Poller.NoticesOrdered` | main.py:150 | notifications leave in strictly increasing index order, so at most one per streamer per cycle |
| `Poller.NotifiedIff` | main.py:151-157 | a streamer is notified in a cycle if and only if it is on a rising edge |
| `Poller.CycleKeepsBinary` | main.py:134-137 | counters that are all 0 or 1 stay 0 or 1 after a cycle |
| `Poller.NotifiedOnlyOnRisingEdge` | main.py:151-157 | a notification for index i means data was present and counter i was below 1; counter i is then bumped by one (0 becomes 1) |
| `Poller.SustainedOnlineIsSilent` | main.py:151-159 | live data with a positive counter: no notification and the counter is unchanged |
| `Poller.OfflineRearms` | main.py:159-160 | empty or missing data: no notification; a positive counter becomes 0, any other is unchanged |
| `Poller.UnknownUserIgnored` | main.py:152-157 | live data whose first user name has no tag: no notification and the counter is unchanged |
| `Poller.CycleTagsKnown` | main.py:152-157 | every tag a cycle emits has a template, so the poller never triggers the fallback text |
| `Poller.CountsAfterCycles` | main.py:139-162 | the counters after m cycles of the loop, one per tracked streamer |
| `Poller.TagsAfterCycles` | main.py:139-162 | m cycles over n streamers give at most m times n notifications |
| `Poller.Deliver` | main.py:173-180 | one message per notified tag, in order; a message is an embed exactly when its tag is known |
| `Poller.RunTagsKnown` | main.py:139-163 | the same holds for every tag emitted over any number of cycles |
| `Poller.CounterTracksLiveness` | main.py:139-163 | for a streamer that always reports a known name and starts at 0, the counter after m cycles is 1 exactly when the last cycle saw it live |
| `Poller.EdgeTriggered` | main.py:139-163 | under the same conditions, cycle m notifies the streamer exactly when it is live now and was offline in the previous cycle (or m is the first cycle): one notification per online streak |
| `Poller.Run` | main.py:130-163 | starting from counters [0, 0], the messages sent over a run of cycles are the messages for the tags of the fold over the cycles, and every one is an embed |
| `Scenarios.OneNotificationPerStreak` | main.py:139-163 | offline, online, online, offline, online gives exactly two notifications and leaves the counter at 1 |
| `Scenarios.TwoStreamers` | main.py:139-163 | both offline, then A online, then unchanged, then A offline and B online: no delivery, then one for A, none new, then one for B |
| `Scenarios.TagFollowsUserName` | main.py:150-157 | slot 0 reporting user `dpsOsiris` notifies `dpsosiris` and bumps counter 0 |
| `Scenarios.UnrecognisedNameIgnored` | main.py:152-157 | a live response from `Arthlight` (different capitalisation) notifies nothing and leaves the counters at 0 |

## Left out

- HTTP requests to the Twitch API, the `Client-ID` header and JSON decoding (main.py:144-148) are network I/O. A cycle receives the decoded responses directly. A transport or parse error makes polling stop in the source; it is not modelled.
- Discord client calls are foreign library calls: `get_user`, `avatar_url`, `get_channel`, `channel.send` and `client.run` (main.py:73-74, 171-185, 188-189). The avatar URLs are a parameter (`Avatars`), and sending is appending to the returned message sequence.
- `asyncio.sleep(10)`, the async/await structure and the unbounded `while True` (main.py:60-62, 139, 163) have no logical content here. The loop is modelled over a finite sequence of cycles.
- Loading credentials from the environment or a `.env` file (main.py:47-55) is configuration I/O.
- The internals of `discord.Embed` and `discord.Colour` are not modelled. An embed is a plain record, and a colour is an RGB triple of values in 0..255.
- Poller.PollCycle: `Response` can only express well-shaped responses: a JSON object whose `data` is missing, null or an array of objects. The model does not cover three shapes that raise inside the counter loop: a body that is not an object (no `.get`, main.py:151), a non-empty `data` that is an object (`[0]` raises, main.py:152), and a `data[0]` that is not an object (main.py:152, 155). In the source such an exception stops polling partway through a cycle. By then the earlier counters have been updated and their messages sent. The contract of `PollCycle` instead has every counter updated.
- Poller.Run: assumes every Discord call succeeds. In the source, a missing user from `get_user` (main.py:73-74) makes `avatar_url` raise (main.py:91, 119). A missing channel from `get_channel` or a failed `channel.send` (main.py:171-180) also raises. The exception leaves the loop just after the counter was bumped (main.py:153, 156), and polling stops. `Run` keeps going instead.
- Poller.Run: uses the same `Avatars` for the whole run. The source looks the avatars up again for every embed (main.py:73-74).
- Notifier.MessageSent: is total and always returns a message. The source can raise while building the embed or sending it (main.py:73-74, 91, 119, 171-180). Those failures are not modelled.
- Poller.Run: delivers the messages of a cycle after the cycle's counter loop finishes, not interleaved with it. The order of messages is the same.
