# Idiom-chain game engine of a WeChat robot, in Dafny

This project models the idiom-chaining game ("成语接龙") of a WeChat robot,
together with the small pieces of robot logic wrapped around it.

The game engine is class `Chengyu` in `base/func_chengyu.py`:

- It builds three lookup maps from the dictionary table (`_build_data`):
  - `cys`: idiom → last pinyin syllable;
  - `zis`: first character → idioms;
  - `yins`: first syllable → idioms.
- It keeps per-user maps: `context` (the idiom in play), `errors` and `failure_count`.
- A move (`getNext`) is judged by characters only: the last character of the idiom in play must equal the first character of the submission.
- The machine's reply (`getNextWord`) is drawn at random:
  - first from the other idioms that start with the submission's last character;
  - only when there are none, from the other idioms whose first syllable is the submission's tail syllable.
- `reset_current_chengyu` seeds a fresh idiom and zeroes both counters.
- `query_current_chengyu` reports the idiom in play.

From `robot.py` the model takes:

- how the two decorators on `processMsg` route a message (`Robot.Route`);
- `value_check`;
- the one-minute send window of `sendTextMsg`;
- what the `#<idiom>` and `#新闻` branches do to the reply, the points ledger and the send window.

Modules, one per file:

- `Wrappers` (`wrappers.dfy`): `Option` and the Python exceptions the code can raise.
- `Pinyin` (`pinyin.dfy`): `str.split(" ")` and the first and last syllable.
- `ChengyuIndex` (`index.dfy`): the dictionary rows, `_build_data`, `isChengyu` and `can_connect`.
- `ChengyuGame` (`game.dfy`): `getNextWord`, `getNext`, reset and query over a `Session` value.
- `Robot` (`robot.dfy`): routing, `value_check`, rate limit, points ledger and the two handlers.

How the model stands in for the parts it cannot run:

- Randomness: `random.choice` is a nondeterministic pick (`:|`) in a method. Its contract only says the result is a member of the candidate set.
- Exceptions: an exception the source would raise is returned as a value (`Raised(IndexError)`, `UnpackFailed(ValueError)`, a `TypeError` from a refused send). It is not ruled out by a precondition, except in two places. `GetNextWord` (with `Successors` and `CharCandidates`) requires a non-empty idiom, because `cy[-1]` (base/func_chengyu.py:99) would raise `IndexError` on `""`; its only caller `getNext` always passes a dictionary idiom, which is non-empty. The other place is the dictionary table: an idiom cell that is empty would make `_build_data` raise at `x[0]`, and `BuildIndex` requires that none is (see Left out).
- Persistence: each `save_json` is the new map value.
- The database: the points ledger is a `map` from user id to balance.

Behaviour of the code as written that a reader may not expect:

- Legality never falls back to syllables. The code has no phonetic-matching flag.
- A legal move with no possible reply answers `(False, "没有找到可以接龙的成语。")`. The current idiom stays unchanged.
- The index does not reject a malformed dictionary. A repeated idiom takes the tail syllable of its LAST row (`dict(zip(...))`). It sits in the syllable bucket of every row that lists it. `BuildIndexLastRowWins` and `BuildIndexBySyllable` state this.
- "No game" means that `context.get(wxid)` is falsy, so a stored `""` also starts a new game. Yet `query_current_chengyu` reports such an entry as `""`, not '暂无'.
- On a user's first play, `getNext` returns a bare string. `robot.py` line 148 unpacks it as a pair, which raises `ValueError`. The user gets no reply, but the seeded idiom has already been stored (see Findings).
- When the send window is full, the warning at `robot.py` line 340 adds the numeric limit to a `str` and raises `TypeError`. Nothing is sent, and the exception also skips what the caller would have done next. For an accepted move, the +2 points are not awarded, yet the machine's reply is already stored as the user's idiom although the user never sees it (see Findings).

## Model

| member | source | states |
|---|---|---|
| `Pinyin.JoinSplit` | base/func_chengyu.py:29-30 | joining the fields of `pinyin.split(" ")` with single spaces gives the pinyin back |
| `Pinyin.Split` | base/func_chengyu.py:29-30 | `split(" ")` always gives at least one field, and no field contains a space |
| `Pinyin.SeveralFieldsIffSpace` | base/func_chengyu.py:29-30 | `split(" ")` gives more than one field iff the text holds a space |
| `Pinyin.FirstSyllable` | base/func_chengyu.py:29 | the first syllable is the longest space-free prefix of the pinyin (the whole pinyin, or followed by a space) |
| `Pinyin.LeadingField` | base/func_chengyu.py:29 | the first field of `split(" ")` is a prefix of the text that is all of it or is followed by a space |
| `Pinyin.LastSyllable` | base/func_chengyu.py:30 | the last syllable is the longest space-free suffix of the pinyin (the whole pinyin, or preceded by a space) |
| `Pinyin.TrailingField` | base/func_chengyu.py:30 | the last field of `split(" ")` is a suffix of the text that is all of it or is preceded by a space |
| `ChengyuIndex.BuildIndex` | base/func_chengyu.py:24-37 | the built index is well formed (non-empty idioms, each character bucket exactly the idioms starting with that character, syllable buckets within the dictionary) and its idioms are exactly those listed in the rows |
| `ChengyuIndex.BuildIndexTails` | base/func_chengyu.py:30-33 | an idiom is a key of `cys` iff some row lists it, and its value is the last syllable of the last row listing it |
| `ChengyuIndex.BuildIndexLastRowWins` | base/func_chengyu.py:33 | a row whose idiom is not repeated later fixes that idiom's `cys` entry to the row's last syllable |
| `ChengyuIndex.BuildIndexByChar` | base/func_chengyu.py:27-34 | `x` is in the bucket of character `c` iff `x` is a listed idiom starting with `c`; only non-empty buckets have keys |
| `ChengyuIndex.BuildIndexBySyllable` | base/func_chengyu.py:29-35 | `x` is in the bucket of syllable `s` iff some row lists `x` with a pinyin whose first syllable is `s`; only non-empty buckets have keys |
| `ChengyuIndex.IsChengyu` | base/func_chengyu.py:51-53 | true iff the text is a key of `cys`; in a well-formed index such an idiom is non-empty and sits in the bucket of its first character |
| `ChengyuIndex.IsChengyuMeansListed` | base/func_chengyu.py:51-53 | on a built index `isChengyu(x)` holds iff some row lists `x` |
| `ChengyuIndex.CanConnect` | base/func_chengyu.py:114-116 | true iff both texts are dictionary idioms and the first one's last character is the second one's first character |
| `ChengyuIndex.CanConnectOnRows` | base/func_chengyu.py:114-116 | on a built index `can_connect` is decided by the listed idioms and their characters alone, never by syllables |
| `ChengyuGame.CharCandidatesExact` | base/func_chengyu.py:99-103 | the character candidates are exactly the other dictionary idioms starting with the last character of `cy` |
| `ChengyuGame.SuccessorsAreOtherIdioms` | base/func_chengyu.py:97-112 | every possible reply is a dictionary idiom different from `cy` |
| `ChengyuGame.FallbackNeverConnects` | base/func_chengyu.py:104-112 | a reply chosen by the syllable fallback never starts with `cy`'s last character, so `can_connect(cy, reply)` is false |
| `ChengyuGame.Successors` | base/func_chengyu.py:97-112 | `x` is a possible reply iff `x` is not `cy` and either starts with `cy`'s last character, or no other idiom does and `x` is in the bucket of `cy`'s tail syllable |
| `ChengyuGame.SuccessorsMatchRows` | base/func_chengyu.py:97-112 | on a built index the bucket lookups give the reference set defined on the rows: other idioms by character, else other idioms by the tail syllable |
| `ChengyuGame.GetNextWord` | base/func_chengyu.py:97-112 | returns `None` iff there is no candidate; otherwise a candidate, never `cy`, starting with `cy`'s last character whenever such an idiom exists, else from `cy`'s tail-syllable bucket |
| `ChengyuGame.PickIdiom` | base/func_chengyu.py:66 | `random.choice(list(cys.keys()))` gives a dictionary idiom, and fails only for an empty dictionary |
| `ChengyuGame.GetNext` | base/func_chengyu.py:55-95 | first play seeds a dictionary idiom and returns a plain message (IndexError on an empty dictionary); unknown submissions and character mismatches are rejected with state unchanged; a legal move stores the machine's reply (never `cy`) or reports a dead end; no other user's entry and no counter changes |
| `ChengyuGame.MoveLegalIffCanConnect` | base/func_chengyu.py:72-82 | from a dictionary idiom, a submission passes `getNext`'s checks iff `can_connect` holds |
| `ChengyuGame.Reset` | base/func_chengyu.py:118-126 | the user gets a dictionary idiom and zeroed counters, other users keep theirs, and the query then reports the new idiom |
| `ChengyuGame.Query` | base/func_chengyu.py:128-129 | reports the user's idiom, '暂无' for a user without entry, and nothing for an entry holding `""` |
| `ChengyuGame.QueryIsPerUser` | base/func_chengyu.py:128-129 | a change confined to one user leaves every other user's query answer unchanged |
| `ChengyuGame.ExampleChain` | base/func_chengyu.py:97-116 | with exactly 马到成功 and 功亏一篑 listed, 功亏一篑 follows 马到成功 and is the only reply to it, the reverse does not connect, and the unlisted 风和日丽 connects to nothing in either position |
| `Robot.ValueCheck` | robot.py:92-96 | true iff the section is present and non-empty and every value whose key is not `'proxy'` is set |
| `Robot.AllSetExceptProxy` | robot.py:95 | the `all(...)` scan is true iff no item other than `'proxy'` holds `None` |
| `Robot.ChengyuPattern` | robot.py:142 | a match is the flag `#`, `?` or `？`, then a text with no line break, then at most one final line break; every message of that shape matches |
| `Robot.BotPattern` | robot.py:104 | matches iff the message starts with one of `#?？!！%`, and splits it into that flag and all the rest |
| `Robot.ForwardPattern` | robot.py:108-109 | matches iff the text starts with 转发, and gives everything after it |
| `Robot.ChengyuRoute` | robot.py:136-170 | only submits, queries, resets or asks a meaning; a dictionary idiom after `#` is always a move, and every matched `?`/`？` message is a meaning lookup; it declines exactly the unmatched messages and the `#` texts that are neither an idiom nor one of its two commands |
| `Robot.BotRoute` | robot.py:99-132 | consumes a message iff it starts with `#`, never plays the game, and routes to `botForward` only a message `#转发x` with non-empty `x`, carrying that `x` |
| `Robot.Route` | robot.py:256-258 | `is_chengyu_command` decides first, `is_bot_command` sees only what it declines, and the original method runs iff both decline |
| `Robot.HashIsConsumed` | robot.py:104-132 | every `#` message is consumed by one of the decorators and never reaches `processMsg` |
| `Robot.PassThroughExactly` | robot.py:99-177 | a message reaches `processMsg` iff it is empty, has no `#`/`?`/`？` flag (so `!`, `！`, `%` and plain text), or is a `?` message spanning several lines |
| `Robot.SubmitOnlyIdioms` | robot.py:142-148 | a submission to `getNext` is always a dictionary idiom sent as `#` plus the idiom, with at most one final line break |
| `Robot.IdiomsAreSubmitted` | robot.py:146-148 | `#` followed by a one-line dictionary idiom is submitted to `getNext` |
| `Robot.QueryAndResetRoutes` | robot.py:146-170 | `#当前成语` and `#重置成语` reach query and reset only when that text is not itself a dictionary idiom |
| `Robot.MeaningOnlyFromQuestionMarks` | robot.py:157-174 | meaning lookups come only from `?`/`？` messages; the lookup nested under `#` is never reached |
| `Robot.QuestionMarksAskMeaning` | robot.py:171-174 | any one-line `?`/`？` message is routed to the meaning lookup |
| `Robot.NewsRoute` | robot.py:115-117 | `#新闻` is the news command unless 新闻 is a dictionary idiom |
| `Robot.ForwardRoutes` | robot.py:104-121 | `#转发x` with non-empty `x` (line breaks included) is routed to `botForward`, and `Forward` carries that `x`; bare `#转发` is consumed and does nothing, unless the game decorator takes the text as a dictionary idiom first |
| `Robot.Recent` | robot.py:338 | keeps every timestamp less than 60 s old as often as it occurs and drops every other one |
| `Robot.Throttle` | robot.py:336-342 | with a positive limit, the message passes iff fewer than `limit` recent timestamps remain; the window becomes the recent timestamps, with `now` added only on a pass; a non-positive limit lets everything through and records nothing |
| `Robot.WindowNeverExceedsLimit` | robot.py:336-342 | over any series of send attempts the window never holds more than `limit` timestamps |
| `Robot.SendText` | robot.py:336-342 | delivers iff the window lets the message out; a refused send raises `TypeError` and leaves only the recent timestamps; with a positive limit a delivered one adds `now`; a non-positive limit leaves the window untouched |
| `Robot.ThrottledSendRaises` | robot.py:339-341 | with a limit of one and a send ten seconds earlier, the message is refused and the warning raises `TypeError` |
| `Robot.SendTextFixed` | robot.py:336-342 | the same decision and window as `SendText`, with a refused message dropped and nothing raised |
| `Robot.UpdatePoints` | db/db_operations.py:75-96 | a known user's balance moves by `delta`, unknown users are left out, no one else changes |
| `Robot.Unpack` | robot.py:148 | a pair unpacks to its parts; a string that is not two characters long raises `ValueError` |
| `Robot.SeedMessageNeverUnpacks` | robot.py:148 | the first-play message of `getNext` never unpacks |
| `Robot.SubmitIdiom` | robot.py:146-156 | first play seeds the game but raises and sends nothing; an accepted move always stores a successor, even when its send is refused; an accepted, deliverable move sends the reply idiom plus 积分+2 and adds 2 points; a rejected move changes neither game nor points and sends the mismatch or dead-end text; once a game is on, only a refused send raises, and it awards nothing; the counters never change; the window moves as the send leaves it |
| `Robot.SubmitIdiomFixed` | robot.py:146-156 | never raises and never changes the counters; something is sent iff the window lets it out; a first play announces the seeded idiom; an accepted move stores a successor and earns two points whether or not the reply goes out; a rejected move sends the mismatch or dead-end text |
| `Robot.Answer` | robot.py:149-156 | after unpacking: sends the text, noted 积分+2 and worth two points when the status is true; a failed unpacking passes its exception on and sends nothing; a refused send raises `TypeError` and awards nothing |
| `Robot.NewsReport` | robot.py:115-118 | the report is sent and one point taken only when the window lets it out; otherwise `TypeError` is raised and the points stay |
| `Robot.NewsReportFixed` | robot.py:115-118 | with the corrected send, the point is taken whether or not the report goes out, and the window moves as in `NewsReport` |

## Left out

- Reading the dictionary table with pandas (base/func_chengyu.py:17): the rows are an input sequence. An empty idiom cell (read as NaN) would make the source raise at `x[0]`, so `BuildIndex` requires non-empty idioms.
- ChengyuIndex.BuildIndex: an empty pinyin cell is also read as NaN, and `x.split(" ")` (base/func_chengyu.py:29) then raises `AttributeError`; the model instead files such a row under the syllable `""`, since a pinyin is a string here.
- JSON persistence (`load_json`/`save_json`, base/func_chengyu.py:39-49): saving a map is committing the new `Session` value. Loading is the identity.
- `self.scores` (base/func_chengyu.py:19): loaded but never read or written by any modelled operation.
- `getMeaning`: the `Chengyu` class shown does not define it. Only the routing to it (`Meaning`) is modelled.
- The actions behind the other commands (`botMenu`, `botForward`, `get_wx_points`, `get_all_type_msg`, `get_friend_info`): they are messaging or file I/O. Only the routing to them is modelled.
- Robot.ForwardRoutes: `botForward` (robot.py:195-199) does nothing unless the sender is in `ROOTIDS`, and then sends the whole message, `#转发` prefix included, to every id in `BOT_TEXT_FORWARD`; `Forward` records only the routing decision and the captured text, not that send.
- ChengyuGame.GetNextWord: `random.choice` is modelled as an arbitrary member of the candidate set. The uniform distribution is not stated.
- ChengyuGame.PickIdiom: same as `GetNextWord`, any dictionary idiom, with no distribution.
- Robot.SendText: only the rate-limit decision is modelled. The random sleep (robot.py:334), the clock (`now` is a parameter), the @-list formatting and the wcferry call (robot.py:344-361) are left out.
- Robot.Recent: timestamps are integers, not the float seconds of `time.time()` (robot.py:335). The test `now - t < 60` is the same on both, but fractional times are not modelled.
- Robot.ValueCheck: the configuration dict is a sequence of key/value items, and a value is present or `None`. Python truthiness of other values is not involved.
- Messaging, threads, contact SQL, friend requests and chat-provider selection in robot.py: I/O, concurrency and foreign libraries.
- The SQLAlchemy layer (db/): reduced to the `UpdatePoints` map update.
- The module-level singleton `cy = Chengyu()` (base/func_chengyu.py:132): the index and session are passed explicitly.

## Findings

| source | as written | input that shows it | evidently intended | confidence | as-written member | corrected member |
|---|---|---|---|---|---|---|
| robot.py:148 | `status, res = cy.getNext(msg.sender, text)` unpacks every reply as a pair, but `getNext` returns a bare string on a user's first play (base/func_chengyu.py:69) | a user with no idiom in play sends `#马到成功` | the seeded-idiom message is sent to the user | high, not executed | `Robot.SubmitIdiom`, `Robot.SeedMessageNeverUnpacks` | `Robot.SubmitIdiomFixed` |
| robot.py:340 | the warning concatenates a `str` and `SEND_RATE_LIMIT`, a number (line 336 compares it with 0), which raises `TypeError`, so a refused message aborts the calling handler | limit 1, one message sent ten seconds earlier, then `#<idiom>` with an accepted move | the warning is logged, the message dropped, and the handler goes on to update the points | high, not executed | `Robot.SendText`, `Robot.ThrottledSendRaises`, `Robot.SubmitIdiom` | `Robot.SendTextFixed`, `Robot.SubmitIdiomFixed`, `Robot.NewsReportFixed` |
