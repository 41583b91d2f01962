/** The pure decisions of class `Robot` around the game: how an incoming
    text is routed by the two decorators on `processMsg`, `value_check`,
    the one-minute send window of `sendTextMsg`, and what an idiom
    submission does to the reply, the points ledger and the send window. */
module Robot {
  import opened Wrappers
  import opened ChengyuIndex
  import opened ChengyuGame

  /** `value_check(args)`: the configuration section is present and
      non-empty, and every value except the one under `'proxy'` is set. */
  function ValueCheck<V>(args: Option<seq<(string, Option<V>)>>): (ok: bool)
    ensures ok <==>
      && args.Some? && |args.value| > 0
      && forall i :: 0 <= i < |args.value| && args.value[i].0 != "proxy" ==> args.value[i].1.Some?
  {
    match args
    case None => false
    case Some(items) => |items| > 0 && AllSetExceptProxy(items)
  }

  /** `all(value is not None for key, value in items if key != 'proxy')`. */
  function AllSetExceptProxy<V>(items: seq<(string, Option<V>)>): (ok: bool)
    ensures ok <==> forall i :: 0 <= i < |items| && items[i].0 != "proxy" ==> items[i].1.Some?
    decreases |items|
  {
    if |items| == 0 then true
    else (items[0].0 == "proxy" || items[0].1.Some?) && AllSetExceptProxy(items[1..])
  }

  /** Where a message ends up after both decorators on `processMsg`. */
  datatype Command =
    | Submit(idiom: string)   // `getNext` on a dictionary idiom
    | QueryCurrent            // `query_current_chengyu`
    | ResetCurrent            // `reset_current_chengyu`
    | Meaning(text: string)   // `getMeaning`
    | Menu                    // `botMenu`
    | News                    // `newsReport`, then one point off
    | Forward(body: string)   // `botForward`, with the text captured after 转发
    | Points                  // `get_wx_points`
    | MessageTypes            // `get_all_type_msg`
    | FriendList              // `get_friend_info`
    | Swallowed               // a `#` message no branch recognises: nothing happens
    | PassThrough             // the undecorated `processMsg`

  /** `re.findall(r"^([#?？])(.*)$", content)[0]`: `.` stops at a line break
      and `$` also matches before one final line break, so the text after
      the flag may end in one `\n`, which is not captured, and holds no other. */
  function ChengyuPattern(content: string): (m: Option<(char, string)>)
    // a match is the flag, then a text without line break, then at most one
    ensures m.Some? ==>
      && |content| > 0 && content[0] == m.value.0 && m.value.0 in {'#', '?', '？'}
      && '\n' !in m.value.1
      && (content == [m.value.0] + m.value.1 || content == [m.value.0] + m.value.1 + "\n")
    // and every message of that shape matches
    ensures |content| > 0 && content[0] in {'#', '?', '？'} && '\n' !in content[1..] ==>
      m == Some((content[0], content[1..]))
    ensures |content| > 1 && content[0] in {'#', '?', '？'} && content[|content| - 1] == '\n' && '\n' !in content[1..|content| - 1] ==>
      m == Some((content[0], content[1..|content| - 1]))
  {
    if |content| == 0 || content[0] !in {'#', '?', '？'} then None
    else
      var rest := content[1..];
      if '\n' !in rest then Some((content[0], rest))
      else if rest[|rest| - 1] == '\n' && '\n' !in rest[..|rest| - 1] then Some((content[0], rest[..|rest| - 1]))
      else None
  }

  /** `re.findall(r"^([#?？!！%])([\s\S]*)$", content)[0]`: any text follows
      the flag. */
  function BotPattern(content: string): (m: Option<(char, string)>)
    ensures m.Some? <==> |content| > 0 && content[0] in {'#', '?', '？', '!', '！', '%'}
    ensures m.Some? ==> content == [m.value.0] + m.value.1
  {
    if |content| == 0 || content[0] !in {'#', '?', '？', '!', '！', '%'} then None
    else Some((content[0], content[1..]))
  }

  const ForwardWord := "转发"

  /** `re.findall(r"^(转发)([\s\S]*)$", text)[0]`: the text after a leading
      转发. */
  function ForwardPattern(text: string): (m: Option<string>)
    ensures m.Some? <==> |text| >= 2 && text[..2] == ForwardWord
    ensures m.Some? ==> text == ForwardWord + m.value
  {
    if |text| >= 2 && text[..2] == ForwardWord then Some(text[2..]) else None
  }

  /** The decorator `is_chengyu_command`; `None` hands the message on. */
  function ChengyuRoute(ix: Index, content: string): (r: Option<Command>)
    // it only ever submits, queries, resets or looks a meaning up
    ensures r.Some? ==> r.value.Submit? || r.value.QueryCurrent? || r.value.ResetCurrent? || r.value.Meaning?
    // a dictionary idiom after `#` is always a move
    ensures ChengyuPattern(content).Some? && ChengyuPattern(content).value.0 == '#' && ChengyuPattern(content).value.1 in ix.cys ==>
      r == Some(Submit(ChengyuPattern(content).value.1))
    ensures r.Some? && r.value.Submit? ==> r.value.idiom in ix.cys && ChengyuPattern(content) == Some(('#', r.value.idiom))
    // every `?`/`？` message it matches is a meaning lookup
    ensures r.Some? && r.value.Meaning? <==> ChengyuPattern(content).Some? && ChengyuPattern(content).value.0 != '#'
    // it declines unmatched messages and `#` texts it does not know
    ensures r.None? <==>
      || ChengyuPattern(content).None?
      || (&& ChengyuPattern(content).value.0 == '#'
          && ChengyuPattern(content).value.1 !in ix.cys
          && ChengyuPattern(content).value.1 !in {"当前成语", "重置成语"})
  {
    match ChengyuPattern(content)
    case None => None
    case Some((flag, text)) =>
      if flag == '#' then
        if IsChengyu(ix, text) then Some(Submit(text))
        // the `?` branch nested under `flag == "#"` can never be taken
        else if flag == '?' || flag == '？' then Some(Meaning(text))
        else if text == "当前成语" then Some(QueryCurrent)
        else if text == "重置成语" then Some(ResetCurrent)
        else None
      else Some(Meaning(text))
  }

  /** The decorator `is_bot_command`: a `#` message is always consumed; every
      other flag is handed on. */
  function BotRoute(content: string): (r: Option<Command>)
    ensures r.Some? <==> |content| > 0 && content[0] == '#'
    // it never plays the game
    ensures r.Some? ==> !(r.value.Submit? || r.value.QueryCurrent? || r.value.ResetCurrent? || r.value.Meaning? || r.value.PassThrough?)
    ensures r.Some? && r.value.Forward? ==> r.value.body != "" && content == "#" + ForwardWord + r.value.body
  {
    match BotPattern(content)
    case None => None
    case Some((flag, text)) =>
      if flag != '#' then None
      else if text == "菜单" then Some(Menu)
      else if text == "新闻" then Some(News)
      else if ForwardPattern(text).Some? && ForwardPattern(text).value != "" then Some(Forward(ForwardPattern(text).value))
      else if text == "积分" then Some(Points)
      else if text == "类型" then Some(MessageTypes)
      else if text == "friendList" then Some(FriendList)
      else Some(Swallowed)
  }

  /** `processMsg` as decorated: `is_chengyu_command` runs first, then
      `is_bot_command`, then the original method. */
  function Route(ix: Index, content: string): (c: Command)
    // `is_chengyu_command` decides first; `is_bot_command` sees only what it declines
    ensures ChengyuRoute(ix, content).Some? ==> c == ChengyuRoute(ix, content).value
    ensures ChengyuRoute(ix, content).None? && BotRoute(content).Some? ==> c == BotRoute(content).value
    ensures c == PassThrough <==> ChengyuRoute(ix, content).None? && BotRoute(content).None?
  {
    match ChengyuRoute(ix, content)
    case Some(c) => c
    case None =>
      match BotRoute(content)
      case Some(c) => c
      case None => PassThrough
  }

  /** A message starting with `#` never reaches the original `processMsg`. */
  lemma HashIsConsumed(ix: Index, content: string)
    requires |content| > 0 && content[0] == '#'
    ensures Route(ix, content) != PassThrough
  {
  }

  /** Exactly the messages with no flag, with `!`, `！` or `%`, and the `?`
      messages spanning several lines reach the original `processMsg`. */
  lemma PassThroughExactly(ix: Index, content: string)
    ensures Route(ix, content) == PassThrough <==>
      || |content| == 0
      || content[0] !in {'#', '?', '？'}
      || (content[0] in {'?', '？'} && ChengyuPattern(content).None?)
  {
  }

  /** Only dictionary idioms are submitted, from a `#` message holding the
      idiom and at most one final line break. */
  lemma SubmitOnlyIdioms(ix: Index, content: string, t: string)
    requires Route(ix, content) == Submit(t)
    ensures t in ix.cys
    ensures content == "#" + t || content == "#" + t + "\n"
  {
    assert ChengyuRoute(ix, content) == Some(Submit(t));
    assert ChengyuPattern(content) == Some(('#', t));
  }

  /** `#` followed by a one-line dictionary idiom is submitted to the game. */
  lemma IdiomsAreSubmitted(ix: Index, t: string)
    requires t in ix.cys
    requires '\n' !in t
    ensures Route(ix, "#" + t) == Submit(t)
  {
    assert ("#" + t)[1..] == t;
  }

  /** `#当前成语` and `#重置成语` reach the query and the reset only when that
      text is not itself a dictionary idiom; otherwise it is a move. */
  lemma QueryAndResetRoutes(ix: Index)
    ensures Route(ix, "#当前成语") == (if "当前成语" in ix.cys then Submit("当前成语") else QueryCurrent)
    ensures Route(ix, "#重置成语") == (if "重置成语" in ix.cys then Submit("重置成语") else ResetCurrent)
  {
    assert "#当前成语"[1..] == "当前成语";
    assert "#重置成语"[1..] == "重置成语";
  }

  /** Meaning lookups come only from `?` and `？` messages: the lookup nested
      under the `#` branch is dead code. */
  lemma MeaningOnlyFromQuestionMarks(ix: Index, content: string, t: string)
    requires Route(ix, content) == Meaning(t)
    ensures content[0] in {'?', '？'}
    ensures ChengyuPattern(content) == Some((content[0], t))
  {
  }

  /** Any one-line `?` or `？` message asks for a meaning, idiom or not. */
  lemma QuestionMarksAskMeaning(ix: Index, flag: char, t: string)
    requires flag in {'?', '？'}
    requires '\n' !in t
    ensures Route(ix, [flag] + t) == Meaning(t)
  {
    assert ([flag] + t)[1..] == t;
  }

  /** `#新闻` is the news command unless 新闻 is a dictionary idiom. */
  lemma NewsRoute(ix: Index)
    requires "新闻" !in ix.cys
    ensures Route(ix, "#新闻") == News
  {
    assert "#新闻"[1..] == "新闻";
    assert "新闻"[..2] != ForwardWord by {
      assert "新闻"[0] == '新';
    }
  }

  /** `#转发<x>` is routed to `botForward`, carrying the captured `x` (line
      breaks included), when `x` is non-empty; a bare `#转发` is consumed
      without doing anything.  Both hold unless the
      one-line text after `#` (less a final line break) is a dictionary idiom,
      which `is_chengyu_command` takes first. */
  lemma ForwardRoutes(ix: Index, x: string)
    requires '\n' !in x ==> ForwardWord + x !in ix.cys
    requires |x| > 0 && x[|x| - 1] == '\n' && '\n' !in x[..|x| - 1] ==> ForwardWord + x[..|x| - 1] !in ix.cys
    ensures |x| > 0 ==> Route(ix, "#" + ForwardWord + x) == Forward(x)
    ensures |x| == 0 ==> Route(ix, "#" + ForwardWord + x) == Swallowed
  {
    var content := "#" + ForwardWord + x;
    var text := ForwardWord + x;
    assert content == ['#'] + text;
    assert text[..2] == ForwardWord && text[2..] == x;
    assert text != "菜单" && text != "新闻" && text != "积分" && text != "类型" && text != "friendList" by {
      assert text[0] == '转';
    }
    ForwardDeclinedByGame(ix, x);
    assert BotPattern(content) == Some(('#', text));
  }

  /** Under the same conditions `is_chengyu_command` hands `#转发<x>` on. */
  lemma ForwardDeclinedByGame(ix: Index, x: string)
    requires '\n' !in x ==> ForwardWord + x !in ix.cys
    requires |x| > 0 && x[|x| - 1] == '\n' && '\n' !in x[..|x| - 1] ==> ForwardWord + x[..|x| - 1] !in ix.cys
    ensures ChengyuRoute(ix, "#" + ForwardWord + x).None?
  {
    var m := ChengyuPattern("#" + ForwardWord + x);
    if m.Some? {
      ForwardCapture(x, m.value.1);
      assert m.value.1 !in {"当前成语", "重置成语"} by {
        assert m.value.1[0] == '转';
      }
    }
  }

  /** What the one-line pattern can capture from `#转发<x>`: all of `转发<x>`
      when `x` has no line break, or `转发` and `x` less its one final line
      break. */
  lemma ForwardCapture(x: string, t: string)
    requires '\n' !in t
    requires "#" + ForwardWord + x == ['#'] + t || "#" + ForwardWord + x == ['#'] + t + "\n"
    ensures || ('\n' !in x && t == ForwardWord + x)
            || (|x| > 0 && x[|x| - 1] == '\n' && '\n' !in x[..|x| - 1] && t == ForwardWord + x[..|x| - 1])
  {
    var text := ForwardWord + x;
    assert "#" + ForwardWord + x == ['#'] + text;
    if text == t {
      assert '\n' !in x by {
        forall k | 0 <= k < |x| ensures x[k] != '\n' {
          assert x[k] == t[k + 2];
        }
      }
    } else {
      assert text == t + "\n" by {
        assert (['#'] + text)[1..] == text;
        assert (['#'] + t + "\n")[1..] == t + "\n";
      }
      assert text[|text| - 1] == '\n';
      assert |x| > 0;
      var body := x[..|x| - 1];
      assert text == ForwardWord + body + "\n";
      assert t == text[..|text| - 1];
      assert ForwardWord + body == text[..|text| - 1];
      assert '\n' !in body by {
        forall k | 0 <= k < |body| ensures body[k] != '\n' {
          assert body[k] == t[k + 2];
        }
      }
    }
  }

  /** The timestamps of the last minute: `[t for t in ts if now - t < 60]`. */
  function Recent(window: seq<int>, now: int): (kept: seq<int>)
    ensures |kept| <= |window|
    ensures forall i :: 0 <= i < |kept| ==> now - kept[i] < 60
    ensures forall t :: multiset(kept)[t] == (if now - t < 60 then multiset(window)[t] else 0)
    decreases |window|
  {
    if |window| == 0 then []
    else
      var rest := Recent(window[1..], now);
      assert window == [window[0]] + window[1..];
      if now - window[0] < 60 then [window[0]] + rest else rest
  }

  /** The decision of `sendTextMsg` and the window it leaves behind. */
  datatype Gate = Gate(open: bool, window: seq<int>)

  /** The rate limit of `sendTextMsg` at time `now`: with a positive limit,
      old timestamps are dropped (even when the message is then refused),
      and the message goes out only if fewer than `limit` remain, `now`
      being recorded; a limit of zero or less lets everything through and
      records nothing. */
  function Throttle(window: seq<int>, now: int, limit: int): (g: Gate)
    ensures limit <= 0 ==> g == Gate(true, window)
    ensures limit > 0 ==> forall i :: 0 <= i < |g.window| ==> now - g.window[i] < 60
    ensures limit > 0 && g.open ==> 0 < |g.window| <= limit && g.window[|g.window| - 1] == now
    ensures limit > 0 && !g.open ==> |g.window| >= limit && |g.window| <= |window|
    // the decision counts the recent sends; only a pass records `now`
    ensures limit > 0 ==> (g.open <==> |Recent(window, now)| < limit)
    ensures limit > 0 ==> g.window == Recent(window, now) + (if g.open then [now] else [])
  {
    if limit <= 0 then Gate(true, window)
    else
      var kept := Recent(window, now);
      if |kept| >= limit then Gate(false, kept) else Gate(true, kept + [now])
  }

  /** The window after a series of send attempts at the given times. */
  function Replay(window: seq<int>, times: seq<int>, limit: int): seq<int>
    decreases |times|
  {
    if |times| == 0 then window
    else Replay(Throttle(window, times[0], limit).window, times[1..], limit)
  }

  /** However many messages are attempted, the window never holds more than
      `limit` timestamps once it starts within the limit. */
  lemma {:induction false} WindowNeverExceedsLimit(window: seq<int>, times: seq<int>, limit: int)
    requires limit > 0
    requires |window| <= limit
    ensures |Replay(window, times, limit)| <= limit
    decreases |times|
  {
    if |times| > 0 {
      WindowNeverExceedsLimit(Throttle(window, times[0], limit).window, times[1..], limit);
    }
  }

  /** `sendTextMsg` lets a message out at time `now`. */
  predicate Delivers(window: seq<int>, now: int, limit: int) {
    limit <= 0 || |Recent(window, now)| < limit
  }

  /** The outcome of `sendTextMsg`: whether the text went out, the new
      window, and the exception raised.  When refused, the warning at
      robot.py line 340 adds the numeric limit to a `str` and raises `TypeError`, so
      the caller's remaining statements do not run. */
  datatype Send = Send(delivered: bool, window: seq<int>, raised: Option<PyError>)

  function SendText(window: seq<int>, now: int, limit: int): (s: Send)
    ensures s.delivered <==> Delivers(window, now, limit)
    ensures s.raised.Some? <==> !s.delivered
    ensures s.raised.Some? ==> s.raised.value == TypeError
    ensures s.delivered && limit > 0 ==> s.window == Recent(window, now) + [now]
    ensures !s.delivered ==> s.window == Recent(window, now)
    ensures limit <= 0 ==> s.window == window
  {
    var g := Throttle(window, now, limit);
    Send(g.open, g.window, if g.open then None else Some(TypeError))
  }

  /** With a limit of one and a send ten seconds ago, the next message is
      refused and the warning raises. */
  lemma ThrottledSendRaises()
    ensures SendText([0], 10, 1) == Send(false, [0], Some(TypeError))
  {
    assert Recent([0], 10) == [0];
  }

  /** `sendTextMsg` with the warning formatting the limit as text: a refused
      message is logged and dropped, and the caller carries on. */
  function SendTextFixed(window: seq<int>, now: int, limit: int): (s: Send)
    ensures s.delivered <==> Delivers(window, now, limit)
    ensures s.raised == None
    ensures s.window == SendText(window, now, limit).window
  {
    var g := Throttle(window, now, limit);
    Send(g.open, g.window, None)
  }

  /** `update_user_points(wechat_id, delta)`: a known user's balance moves by
      `delta`; an unknown user is left out (the call returns `None`). */
  function UpdatePoints(ledger: map<string, int>, who: string, delta: int): (l: map<string, int>)
    ensures l.Keys == ledger.Keys
    ensures who in ledger ==> l[who] == ledger[who] + delta
    ensures forall u :: u in ledger && u != who ==> l[u] == ledger[u]
  {
    if who in ledger then ledger[who := ledger[who] + delta] else ledger
  }

  /** `status, res = reply`: a pair unpacks; a two-character string unpacks
      into its characters (the first, being non-empty, is truthy); any other
      string raises `ValueError`. */
  datatype Unpacked = Unpacked(status: bool, res: string) | UnpackFailed(error: PyError)

  function Unpack(reply: Reply): (u: Unpacked)
    ensures reply.Pair? ==> u == Unpacked(reply.ok, reply.text)
    ensures reply.Plain? && |reply.text| != 2 ==> u == UnpackFailed(ValueError)
  {
    match reply
    case Pair(ok, text) => Unpacked(ok, text)
    case Plain(text) => if |text| == 2 then Unpacked(true, text[1..]) else UnpackFailed(ValueError)
    case Raised(e) => UnpackFailed(e)
  }

  /** The seeded-game message of a first play is never two characters long,
      so unpacking it always fails. */
  lemma SeedMessageNeverUnpacks(x: string)
    ensures Unpack(Plain(SeedMessage(x))) == UnpackFailed(ValueError)
  {
    assert |SeedMessage(x)| >= 27;
  }

  const PointsNote := "\n积分+2"

  /** Everything handling one message changes. */
  datatype Effects = Effects(
    sent: Option<string>,
    session: Session,
    ledger: map<string, int>,
    window: seq<int>,
    raised: Option<PyError>)

  /** A move the game accepts: the user has an idiom in play, the characters
      meet and some idiom can follow. */
  predicate Accepts(ix: Index, s: Session, sender: string, text: string)
    requires |text| > 0
  {
    InGame(s, sender) && Last(s.context[sender]) == text[0] && Successors(ix, text) != {}
  }

  /** The answer `getNext` gives a move it rejects although the idiom is
      listed: the characters do not meet, or nothing can follow. */
  function RejectionText(s: Session, sender: string, text: string): string
    requires InGame(s, sender) && |text| > 0
  {
    if Last(s.context[sender]) != text[0] then MismatchMessage(s.context[sender], text) else NoSuccessor
  }

  /** The `#<idiom>` branch of `is_chengyu_command`, as written: the reply of
      `getNext` is unpacked, sent (with 积分+2 on an accepted move), and an
      accepted move is worth two points. */
  method SubmitIdiom(
    ix: Index, s: Session, ledger: map<string, int>, window: seq<int>,
    now: int, limit: int, sender: string, text: string)
    returns (e: Effects)
    requires WellFormed(ix)
    requires text in ix.cys
    // only the sender's current idiom can change, and the counters never do
    ensures e.session.context - {sender} == s.context - {sender}
    ensures e.session.errors == s.errors && e.session.failures == s.failures
    // points move only by +2 for the sender, and only with an accepted move that went out
    ensures e.ledger == ledger || (e.ledger == UpdatePoints(ledger, sender, 2) && Accepts(ix, s, sender, text) && e.sent.Some?)
    // first play: the game is seeded but unpacking the plain reply raises, so nothing is sent
    ensures !InGame(s, sender) ==>
      && e.sent == None && e.raised == Some(ValueError)
      && e.ledger == ledger && e.window == window
      && sender in e.session.context && e.session.context[sender] in ix.cys
    // an accepted move that may be sent: the reply idiom, noted +2, two points
    ensures Accepts(ix, s, sender, text) && Delivers(window, now, limit) ==>
      && sender in e.session.context
      && e.session.context[sender] in Successors(ix, text)
      && e.sent == Some(e.session.context[sender] + PointsNote)
      && e.ledger == UpdatePoints(ledger, sender, 2)
      && e.raised == None
    // a rejected move: the game state and the points are untouched, the reason is sent
    ensures InGame(s, sender) && !Accepts(ix, s, sender, text) ==>
      && e.session == s && e.ledger == ledger
      && (e.sent.Some? <==> Delivers(window, now, limit))
      && (e.sent.Some? ==> e.sent.value == RejectionText(s, sender, text))
    // a refused send raises and takes the points with it
    ensures InGame(s, sender) && !Delivers(window, now, limit) ==>
      e.sent == None && e.raised == Some(TypeError) && e.ledger == ledger
    // an accepted move stores the machine's reply even when that reply is never sent
    ensures Accepts(ix, s, sender, text) ==>
      sender in e.session.context && e.session.context[sender] in Successors(ix, text)
    // once a game is on, only a refused send raises
    ensures InGame(s, sender) && Delivers(window, now, limit) ==> e.raised == None
    // the window moves as the send attempt leaves it, and is untouched without one
    ensures e.window == if InGame(s, sender) then SendText(window, now, limit).window else window
  {
    var reply, s' := GetNext(ix, s, sender, text);
    var u := Unpack(reply);
    if !InGame(s, sender) {
      SeedMessageNeverUnpacks(s'.context[sender]);
      assert u == UnpackFailed(ValueError);
    } else if Accepts(ix, s, sender, text) {
      assert u == Unpacked(true, s'.context[sender]);
    } else {
      assert u.Unpacked? && !u.status && s' == s;
    }
    e := Answer(u, s', ledger, window, now, limit, sender);
  }

  /** The rest of the `#<idiom>` branch once the reply is unpacked: send the
      text, noted 积分+2 when the status is true, then award the points. */
  function Answer(
    u: Unpacked, s': Session, ledger: map<string, int>, window: seq<int>,
    now: int, limit: int, sender: string): (e: Effects)
    ensures e.session == s'
    ensures u.UnpackFailed? ==> e == Effects(None, s', ledger, window, Some(u.error))
    ensures u.Unpacked? && Delivers(window, now, limit) ==>
      && e.sent == Some(if u.status then u.res + PointsNote else u.res)
      && e.ledger == (if u.status then UpdatePoints(ledger, sender, 2) else ledger)
      && e.raised == None
    ensures u.Unpacked? && !Delivers(window, now, limit) ==>
      e.sent == None && e.raised == Some(TypeError) && e.ledger == ledger
    ensures e.window == if u.Unpacked? then SendText(window, now, limit).window else window
  {
    match u
    case UnpackFailed(err) => Effects(None, s', ledger, window, Some(err))
    case Unpacked(status, res) =>
      var out := SendText(window, now, limit);
      if !out.delivered then Effects(None, s', ledger, out.window, out.raised)
      else
        var text := if status then res + PointsNote else res;
        Effects(Some(text), s', if status then UpdatePoints(ledger, sender, 2) else ledger, out.window, None)
  }

  /** The same branch with both faults corrected: a plain reply from
      `getNext` is sent as it is, for no points, and a refused send is only
      logged, so an accepted move still earns its two points. */
  method SubmitIdiomFixed(
    ix: Index, s: Session, ledger: map<string, int>, window: seq<int>,
    now: int, limit: int, sender: string, text: string)
    returns (e: Effects)
    requires WellFormed(ix)
    requires text in ix.cys
    ensures e.session.context - {sender} == s.context - {sender}
    ensures e.session.errors == s.errors && e.session.failures == s.failures
    ensures e.raised == None
    ensures e.sent.Some? <==> Delivers(window, now, limit)
    ensures e.ledger == ledger || (e.ledger == UpdatePoints(ledger, sender, 2) && Accepts(ix, s, sender, text))
    // first play: the seeded idiom is announced
    ensures !InGame(s, sender) ==>
      && sender in e.session.context && e.session.context[sender] in ix.cys
      && e.ledger == ledger
      && (e.sent.Some? ==> e.sent == Some(SeedMessage(e.session.context[sender])))
    // an accepted move earns two points whether or not the reply goes out
    ensures Accepts(ix, s, sender, text) ==>
      && sender in e.session.context
      && e.session.context[sender] in Successors(ix, text)
      && e.ledger == UpdatePoints(ledger, sender, 2)
      && (e.sent.Some? ==> e.sent == Some(e.session.context[sender] + PointsNote))
    // a rejected move changes nothing but the window, and sends the reason
    ensures InGame(s, sender) && !Accepts(ix, s, sender, text) ==>
      && e.session == s && e.ledger == ledger
      && (e.sent.Some? ==> e.sent.value == RejectionText(s, sender, text))
    ensures e.window == SendTextFixed(window, now, limit).window
  {
    var reply, s' := GetNext(ix, s, sender, text);
    var res, award;
    match reply {
      case Plain(t) => res, award := t, false;
      case Pair(ok, t) => res, award := if ok then t + PointsNote else t, ok;
      case Raised(err) =>
        assert false;
        res, award := "", false;
    }
    var out := SendTextFixed(window, now, limit);
    var ledger' := if award then UpdatePoints(ledger, sender, 2) else ledger;
    e := Effects(if out.delivered then Some(res) else None, s', ledger', out.window, None);
  }

  /** What the `#新闻` branch changes. */
  datatype NewsEffects = NewsEffects(
    sent: Option<string>,
    ledger: map<string, int>,
    window: seq<int>,
    raised: Option<PyError>)

  /** The `#新闻` branch of `is_bot_command`: the report is sent and then one
      point is taken; a refused send raises before the point is taken. */
  function NewsReport(ledger: map<string, int>, window: seq<int>, now: int, limit: int, sender: string, report: string): (e: NewsEffects)
    ensures e.sent.Some? <==> Delivers(window, now, limit)
    ensures e.sent.Some? ==> e.sent.value == report && e.ledger == UpdatePoints(ledger, sender, -1) && e.raised == None
    ensures e.sent.None? ==> e.ledger == ledger && e.raised == Some(TypeError)
    ensures e.window == SendText(window, now, limit).window
  {
    var out := SendText(window, now, limit);
    if out.delivered then NewsEffects(Some(report), UpdatePoints(ledger, sender, -1), out.window, None)
    else NewsEffects(None, ledger, out.window, out.raised)
  }

  /** The `#新闻` branch with the corrected send: the point is taken whether
      or not the report goes out. */
  function NewsReportFixed(ledger: map<string, int>, window: seq<int>, now: int, limit: int, sender: string, report: string): (e: NewsEffects)
    ensures e.sent.Some? <==> Delivers(window, now, limit)
    ensures e.sent.Some? ==> e.sent.value == report
    ensures e.ledger == UpdatePoints(ledger, sender, -1)
    ensures e.raised == None
    ensures e.window == NewsReport(ledger, window, now, limit, sender, report).window
  {
    var out := SendTextFixed(window, now, limit);
    NewsEffects(if out.delivered then Some(report) else None, UpdatePoints(ledger, sender, -1), out.window, None)
  }
}
