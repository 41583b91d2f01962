/** The per-user idiom-chain game of class `Chengyu`: choosing the machine's
    reply (`getNextWord`), judging a move (`getNext`), and the reset and
    query commands.  The persisted JSON maps are held in a `Session` value;
    saving one is committing the new value. */
module ChengyuGame {
  import opened Wrappers
  import opened Pinyin
  import opened ChengyuIndex

  /** The per-user maps `context` (current idiom), `errors` and
      `failure_count`, each keyed by user id. */
  datatype Session = Session(
    context: map<string, string>,
    errors: map<string, int>,
    failures: map<string, int>)

  /** What `getNext` and `reset_current_chengyu` hand back: a bare string, a
      `(bool, str)` pair, or an exception the call raised. */
  datatype Reply =
    | Plain(text: string)
    | Pair(ok: bool, text: string)
    | Raised(error: PyError)

  function Last(s: string): char
    requires |s| > 0
  {
    s[|s| - 1]
  }

  // The fixed reply texts.
  function SeedMessage(x: string): string {
    "当前没有进行中的接龙，系统随机选择了一个成语：" + x + "，请继续接龙。"
  }
  const NotInDictionary := "输入的成语不在成语字典中，请重新输入。"
  const NoSuccessor := "没有找到可以接龙的成语。"
  function MismatchMessage(current: string, cy: string): string {
    "当前成语为：" + current + " " + cy + "无法接龙，请尝试其他成语。"
  }
  function ResetMessage(x: string): string {
    "当前接龙成语已重置为：" + x + "，请继续接龙。"
  }
  const QueryPrefix := "当前接龙成语是："
  const NoneYet := "暂无"

  /** The user has an idiom in play: `context.get(wxid)` is a non-empty
      string (a missing key and `""` are both falsy). */
  predicate InGame(s: Session, wxid: string) {
    wxid in s.context && s.context[wxid] != ""
  }

  /** The idioms other than `cy` that start with `cy`'s last character. */
  function CharCandidates(ix: Index, cy: string): set<string>
    requires |cy| > 0
  {
    Bucket(ix.zis, Last(cy)) - {cy}
  }

  /** The idioms other than `cy` whose first syllable is `cy`'s tail syllable;
      empty when `cy` is not in the dictionary (`cys.get(cy)` is `None`, and
      no syllable bucket has that key). */
  function SyllableCandidates(ix: Index, cy: string): set<string> {
    (if cy in ix.cys then Bucket(ix.yins, ix.cys[cy]) else {}) - {cy}
  }

  /** The set `getNextWord` draws from: the character candidates, or the
      syllable candidates when there are none. */
  function Successors(ix: Index, cy: string): (next: set<string>)
    requires |cy| > 0
    ensures forall x :: x in next <==>
      && x != cy
      && (|| x in Bucket(ix.zis, Last(cy))
          || (&& Bucket(ix.zis, Last(cy)) <= {cy}
              && cy in ix.cys && x in Bucket(ix.yins, ix.cys[cy])))
  {
    var byChar := CharCandidates(ix, cy);
    if byChar != {} then byChar
    else
      assert Bucket(ix.zis, Last(cy)) <= {cy};
      SyllableCandidates(ix, cy)
  }

  /** In a well-formed index the character candidates are exactly the other
      dictionary idioms that start with `cy`'s last character. */
  lemma CharCandidatesExact(ix: Index, cy: string, x: string)
    requires WellFormed(ix)
    requires |cy| > 0
    ensures x in CharCandidates(ix, cy) <==> x in ix.cys && x != cy && x[0] == Last(cy)
  {
    if x in ix.cys && x != cy && x[0] == Last(cy) {
      assert x in ix.zis[x[0]];
    }
  }

  /** The machine's reply is always another dictionary idiom. */
  lemma SuccessorsAreOtherIdioms(ix: Index, cy: string, x: string)
    requires WellFormed(ix)
    requires |cy| > 0
    requires x in Successors(ix, cy)
    ensures x in ix.cys && x != cy
  {
    if CharCandidates(ix, cy) != {} {
      CharCandidatesExact(ix, cy, x);
    }
  }

  /** The syllable fallback is used only when no other idiom starts with the
      last character, so a reply chosen by syllable never connects to `cy`
      by character. */
  lemma FallbackNeverConnects(ix: Index, cy: string, x: string)
    requires WellFormed(ix)
    requires |cy| > 0
    requires CharCandidates(ix, cy) == {}
    requires x in Successors(ix, cy)
    ensures x[0] != Last(cy)
    ensures !CanConnect(ix, cy, x)
  {
    SuccessorsAreOtherIdioms(ix, cy, x);
    CharCandidatesExact(ix, cy, x);
  }

  /** `getNextWord` specified on the dictionary rows alone: the other listed
      idioms starting with `cy`'s last character, or else the other idioms
      whose first syllable is `cy`'s tail syllable. */
  function ReferenceSuccessors(rows: seq<Row>, cy: string): set<string>
    requires NonEmptyIdioms(rows)
    requires |cy| > 0
  {
    var byChar := set r | r in rows && r.idiom != cy && r.idiom[0] == Last(cy) :: r.idiom;
    if byChar != {} then byChar
    else
      match TailSyllable(rows, cy)
      case None => {}
      case Some(t) => IdiomsWithLeadSyllable(rows, t) - {cy}
  }

  /** The bucket lookups of `getNextWord` on a built index compute the
      reference candidate set. */
  lemma {:induction false} SuccessorsMatchRows(rows: seq<Row>, cy: string)
    requires NonEmptyIdioms(rows)
    requires |cy| > 0
    ensures Successors(BuildIndex(rows), cy) == ReferenceSuccessors(rows, cy)
  {
    var ix := BuildIndex(rows);
    var byChar := set r | r in rows && r.idiom != cy && r.idiom[0] == Last(cy) :: r.idiom;
    forall x
      ensures x in CharCandidates(ix, cy) <==> x in byChar
    {
      BuildIndexByChar(rows, Last(cy), x);
    }
    assert CharCandidates(ix, cy) == byChar;
    if byChar == {} {
      BuildIndexTails(rows, cy);
      if cy in ix.cys {
        forall x
          ensures x in SyllableCandidates(ix, cy) <==> x in IdiomsWithLeadSyllable(rows, ix.cys[cy]) - {cy}
        {
          BuildIndexBySyllable(rows, ix.cys[cy], x);
        }
      }
    }
  }

  /** `getNextWord`: a random pick from the successor set, or `None` when it
      is empty. */
  method GetNextWord(ix: Index, cy: string) returns (next: Option<string>)
    requires |cy| > 0
    ensures next.None? <==> Successors(ix, cy) == {}
    ensures next.Some? ==> next.value in Successors(ix, cy)
    ensures WellFormed(ix) && next.Some? ==> next.value in ix.cys && next.value != cy
    ensures WellFormed(ix) && CharCandidates(ix, cy) != {} ==> next.Some? && next.value[0] == Last(cy)
    ensures CharCandidates(ix, cy) == {} && next.Some? ==>
      cy in ix.cys && next.value in Bucket(ix.yins, ix.cys[cy])
  {
    var candidates := Successors(ix, cy);
    if candidates == {} {
      next := None;
    } else {
      var x :| x in candidates;
      next := Some(x);
      if WellFormed(ix) {
        SuccessorsAreOtherIdioms(ix, cy, x);
        if CharCandidates(ix, cy) != {} {
          CharCandidatesExact(ix, cy, x);
        }
      }
    }
  }

  /** `random.choice(list(cys.keys()))`: any dictionary idiom, or an
      `IndexError` for an empty dictionary. */
  method PickIdiom(ix: Index) returns (x: Option<string>)
    ensures x.None? <==> ix.cys == map[]
    ensures x.Some? ==> x.value in ix.cys
  {
    if ix.cys == map[] {
      x := None;
    } else {
      var k :| k in ix.cys;
      x := Some(k);
    }
  }

  /** Storing an entry for one user leaves every other user's entry alone. */
  lemma StoreKeepsOthers(m: map<string, string>, wxid: string, x: string)
    ensures m[wxid := x] - {wxid} == m - {wxid}
  {
  }

  /** `getNext(wxid, cy)`.  Only `context[wxid]` may change, and only on a
      first play (to a random idiom) or an accepted move (to the machine's
      reply, not to `cy`); `errors` and `failure_count` never change. */
  method GetNext(ix: Index, s: Session, wxid: string, cy: string) returns (reply: Reply, s': Session)
    requires WellFormed(ix)
    ensures s'.errors == s.errors && s'.failures == s.failures
    ensures s'.context - {wxid} == s.context - {wxid}
    // first play: the submission is ignored and a random idiom is seeded
    ensures !InGame(s, wxid) && ix.cys == map[] ==> reply == Raised(IndexError) && s' == s
    ensures !InGame(s, wxid) && ix.cys != map[] ==>
      && wxid in s'.context && s'.context[wxid] in ix.cys
      && reply == Plain(SeedMessage(s'.context[wxid]))
    // unknown submission
    ensures InGame(s, wxid) && cy !in ix.cys ==> reply == Plain(NotInDictionary) && s' == s
    // characters do not meet: rejected, with no syllable fallback
    ensures InGame(s, wxid) && cy in ix.cys && Last(s.context[wxid]) != cy[0] ==>
      reply == Pair(false, MismatchMessage(s.context[wxid], cy)) && s' == s
    // legal move but a dead end
    ensures InGame(s, wxid) && cy in ix.cys && Last(s.context[wxid]) == cy[0] && Successors(ix, cy) == {} ==>
      reply == Pair(false, NoSuccessor) && s' == s
    // accepted: the machine's reply becomes the current idiom
    ensures InGame(s, wxid) && cy in ix.cys && Last(s.context[wxid]) == cy[0] && Successors(ix, cy) != {} ==>
      && reply.Pair? && reply.ok
      && reply.text in Successors(ix, cy) && reply.text in ix.cys && reply.text != cy
      && s'.context == s.context[wxid := reply.text]
      && Query(s', wxid) == QueryPrefix + reply.text
  {
    if !InGame(s, wxid) {
      var seed := PickIdiom(ix);
      if seed.None? {
        reply, s' := Raised(IndexError), s;
      } else {
        s' := s.(context := s.context[wxid := seed.value]);
        StoreKeepsOthers(s.context, wxid, seed.value);
        reply := Plain(SeedMessage(seed.value));
      }
      return;
    }
    var current := s.context[wxid];
    if !IsChengyu(ix, cy) {
      reply, s' := Plain(NotInDictionary), s;
      return;
    }
    if Last(current) == cy[0] {
      var next := GetNextWord(ix, cy);
      if next.Some? {
        s' := s.(context := s.context[wxid := next.value]);
        StoreKeepsOthers(s.context, wxid, next.value);
        reply := Pair(true, next.value);
      } else {
        reply, s' := Pair(false, NoSuccessor), s;
      }
    } else {
      reply, s' := Pair(false, MismatchMessage(current, cy)), s;
    }
  }

  /** A move from a dictionary idiom passes the character test of `getNext`
      exactly when `can_connect` holds: judging a move and `can_connect`
      agree, and neither consults syllables. */
  lemma MoveLegalIffCanConnect(ix: Index, current: string, cy: string)
    requires WellFormed(ix)
    requires current in ix.cys
    ensures (cy in ix.cys && Last(current) == cy[0]) <==> CanConnect(ix, current, cy)
  {
  }

  /** `reset_current_chengyu(wxid)`: a random idiom becomes current and both
      counters of the user are zeroed; other users keep their entries. */
  method Reset(ix: Index, s: Session, wxid: string) returns (reply: Reply, s': Session)
    requires WellFormed(ix)
    ensures ix.cys == map[] ==> reply == Raised(IndexError) && s' == s
    ensures ix.cys != map[] ==>
      && wxid in s'.context && s'.context[wxid] in ix.cys
      && InGame(s', wxid)
      && s'.context - {wxid} == s.context - {wxid}
      && s'.errors == s.errors[wxid := 0]
      && s'.failures == s.failures[wxid := 0]
      && reply == Plain(ResetMessage(s'.context[wxid]))
      && Query(s', wxid) == QueryPrefix + s'.context[wxid]
  {
    var seed := PickIdiom(ix);
    if seed.None? {
      reply, s' := Raised(IndexError), s;
    } else {
      s' := Session(
        s.context[wxid := seed.value],
        s.errors[wxid := 0],
        s.failures[wxid := 0]);
      reply := Plain(ResetMessage(seed.value));
    }
  }

  /** `query_current_chengyu(wxid)`.  A user with no entry reads '暂无'; an
      entry holding `""` is reported as it is, although `getNext` treats it
      as no game. */
  function Query(s: Session, wxid: string): (r: string)
    ensures InGame(s, wxid) ==> r == QueryPrefix + s.context[wxid]
    ensures wxid !in s.context ==> r == QueryPrefix + NoneYet
    ensures wxid in s.context && !InGame(s, wxid) ==> r == QueryPrefix
  {
    QueryPrefix + (if wxid in s.context then s.context[wxid] else NoneYet)
  }

  /** After any state change that keeps other users' entries, their query
      answers are unchanged. */
  lemma QueryIsPerUser(s: Session, s': Session, wxid: string, other: string)
    requires s'.context - {wxid} == s.context - {wxid}
    requires other != wxid
    ensures Query(s', other) == Query(s, other)
  {
    assert other in s.context <==> other in s.context - {wxid};
    assert other in s'.context <==> other in s'.context - {wxid};
    if other in s.context {
      assert s.context[other] == (s.context - {wxid})[other];
      assert s'.context[other] == (s'.context - {wxid})[other];
    }
  }

  /** A dictionary listing exactly 马到成功 and 功亏一篑: the second follows
      the first by its character but not the other way round, 风和日丽 (not
      listed) connects to nothing, and the machine answers 马到成功 with
      功亏一篑. */
  lemma ExampleChain(rows: seq<Row>)
    requires NonEmptyIdioms(rows)
    requires Idioms(rows) == {"马到成功", "功亏一篑"}
    ensures CanConnect(BuildIndex(rows), "马到成功", "功亏一篑")
    ensures !CanConnect(BuildIndex(rows), "功亏一篑", "马到成功")
    ensures forall x :: !CanConnect(BuildIndex(rows), "风和日丽", x) && !CanConnect(BuildIndex(rows), x, "风和日丽")
    ensures Successors(BuildIndex(rows), "马到成功") == {"功亏一篑"}
  {
    ExampleIndex(BuildIndex(rows));
  }

  /** The same facts for any well-formed index holding exactly these two
      idioms. */
  lemma ExampleIndex(ix: Index)
    requires WellFormed(ix)
    requires ix.cys.Keys == {"马到成功", "功亏一篑"}
    ensures CanConnect(ix, "马到成功", "功亏一篑")
    ensures !CanConnect(ix, "功亏一篑", "马到成功")
    ensures forall x :: !CanConnect(ix, "风和日丽", x) && !CanConnect(ix, x, "风和日丽")
    ensures Successors(ix, "马到成功") == {"功亏一篑"}
  {
    assert "马到成功"[3] == '功' && "功亏一篑"[0] == '功' && "功亏一篑"[3] == '篑' && "马到成功"[0] == '马';
    assert "风和日丽" != "马到成功" && "风和日丽" != "功亏一篑" by {
      assert "风和日丽"[0] == '风';
    }
    forall x
      ensures x in CharCandidates(ix, "马到成功") <==> x == "功亏一篑"
    {
      CharCandidatesExact(ix, "马到成功", x);
    }
  }
}
