/** The idiom dictionary and the three lookup maps built from it
    (`Chengyu._build_data`), with the two read-only queries on them. */
module ChengyuIndex {
  import opened Wrappers
  import opened Pinyin

  /** One dictionary row: the idiom (column `chengyu`) and its pinyin
      (column `pingyin`).  The descriptive columns are never read by the
      modelled operations. */
  datatype Row = Row(idiom: string, pinyin: string)

  /** The three maps of `_build_data`:
      `cys`  idiom -> last syllable of its pinyin,
      `zis`  first character -> idioms starting with it,
      `yins` first syllable -> idioms whose pinyin starts with it. */
  datatype Index = Index(
    cys: map<string, string>,
    zis: map<char, set<string>>,
    yins: map<string, set<string>>)

  /** `m.get(k, {})`. */
  function Bucket<K>(m: map<K, set<string>>, k: K): set<string> {
    if k in m then m[k] else {}
  }

  /** Every row has a non-empty idiom, so `x[0]` and `x[-1]` are defined. */
  predicate NonEmptyIdioms(rows: seq<Row>) {
    forall r :: r in rows ==> |r.idiom| > 0
  }

  /** The idioms listed in the rows. */
  function Idioms(rows: seq<Row>): set<string> {
    set r | r in rows :: r.idiom
  }

  /** The idioms of the rows whose pinyin starts with `syllable`. */
  function IdiomsWithLeadSyllable(rows: seq<Row>, syllable: string): set<string> {
    set r | r in rows && FirstSyllable(r.pinyin) == syllable :: r.idiom
  }

  /** The tail syllable the dictionary gives `x`: that of the LAST row listing
      `x`, since `dict(zip(...))` keeps the last value of a repeated key. */
  function TailSyllable(rows: seq<Row>, x: string): Option<string>
    decreases |rows|
  {
    if |rows| == 0 then None
    else if rows[|rows| - 1].idiom == x then Some(LastSyllable(rows[|rows| - 1].pinyin))
    else TailSyllable(rows[..|rows| - 1], x)
  }

  /** The shape every index built from rows has: idioms are non-empty, each
      character bucket holds exactly the idioms starting with its key, and
      syllable buckets hold only dictionary idioms. */
  predicate WellFormed(ix: Index) {
    && (forall x :: x in ix.cys ==> |x| > 0)
    && (forall c :: c in ix.zis ==> forall x :: x in ix.zis[c] ==> x in ix.cys && |x| > 0 && x[0] == c)
    && (forall x :: x in ix.cys ==> |x| > 0 && x[0] in ix.zis && x in ix.zis[x[0]])
    && (forall s :: s in ix.yins ==> forall x :: x in ix.yins[s] ==> x in ix.cys)
  }

  const EmptyIndex := Index(map[], map[], map[])

  /** Files one row into the three maps. */
  function AddRow(ix: Index, r: Row): Index
    requires |r.idiom| > 0
  {
    var lead := FirstSyllable(r.pinyin);
    Index(
      ix.cys[r.idiom := LastSyllable(r.pinyin)],
      ix.zis[r.idiom[0] := Bucket(ix.zis, r.idiom[0]) + {r.idiom}],
      ix.yins[lead := Bucket(ix.yins, lead) + {r.idiom}])
  }

  /** Filing a row keeps an index well formed. */
  lemma AddRowWellFormed(ix: Index, r: Row)
    requires WellFormed(ix)
    requires |r.idiom| > 0
    ensures WellFormed(AddRow(ix, r))
  {
    AddRowCharBuckets(ix, r);
    AddRowIdiomsFiled(ix, r);
    AddRowSyllableBuckets(ix, r);
  }

  /** After filing a row, each character bucket still holds only dictionary
      idioms starting with its key. */
  lemma AddRowCharBuckets(ix: Index, r: Row)
    requires WellFormed(ix)
    requires |r.idiom| > 0
    ensures var ix' := AddRow(ix, r);
      forall c :: c in ix'.zis ==> forall x :: x in ix'.zis[c] ==> x in ix'.cys && |x| > 0 && x[0] == c
  {
    var ix' := AddRow(ix, r);
    forall c | c in ix'.zis
      ensures forall x :: x in ix'.zis[c] ==> x in ix'.cys && |x| > 0 && x[0] == c
    {
      if c != r.idiom[0] {
        assert ix'.zis[c] == ix.zis[c];
      }
    }
  }

  /** After filing a row, every idiom is non-empty and in the bucket of its
      first character. */
  lemma AddRowIdiomsFiled(ix: Index, r: Row)
    requires WellFormed(ix)
    requires |r.idiom| > 0
    ensures var ix' := AddRow(ix, r);
      forall x :: x in ix'.cys ==> |x| > 0 && x[0] in ix'.zis && x in ix'.zis[x[0]]
  {
    var ix' := AddRow(ix, r);
    forall x | x in ix'.cys
      ensures |x| > 0 && x[0] in ix'.zis && x in ix'.zis[x[0]]
    {
      if x != r.idiom {
        assert x in ix.cys;
      }
    }
  }

  /** After filing a row, syllable buckets still hold only dictionary idioms. */
  lemma AddRowSyllableBuckets(ix: Index, r: Row)
    requires WellFormed(ix)
    requires |r.idiom| > 0
    ensures var ix' := AddRow(ix, r);
      forall s :: s in ix'.yins ==> forall x :: x in ix'.yins[s] ==> x in ix'.cys
  {
    var ix' := AddRow(ix, r);
    forall s | s in ix'.yins
      ensures forall x :: x in ix'.yins[s] ==> x in ix'.cys
    {
      if s != FirstSyllable(r.pinyin) {
        assert ix'.yins[s] == ix.yins[s];
      }
    }
  }

  /** The idioms of a non-empty table are those of all rows but the last, plus
      the last one. */
  lemma IdiomsOfPrefix(rows: seq<Row>)
    requires |rows| > 0
    ensures Idioms(rows) == Idioms(rows[..|rows| - 1]) + {rows[|rows| - 1].idiom}
  {
    var prefix := rows[..|rows| - 1];
    assert rows == prefix + [rows[|rows| - 1]];
    assert forall r :: r in rows ==> r in prefix || r == rows[|rows| - 1];
  }

  /** All rows but the last still have non-empty idioms. */
  lemma PrefixNonEmpty(rows: seq<Row>)
    requires NonEmptyIdioms(rows)
    requires |rows| > 0
    ensures NonEmptyIdioms(rows[..|rows| - 1])
    ensures |rows[|rows| - 1].idiom| > 0
  {
    assert forall r :: r in rows[..|rows| - 1] ==> r in rows;
  }

  /** `_build_data`: the rows filed one after the other, in table order. */
  function BuildIndex(rows: seq<Row>): (ix: Index)
    requires NonEmptyIdioms(rows)
    ensures WellFormed(ix)
    ensures ix.cys.Keys == Idioms(rows)
    decreases |rows|
  {
    if |rows| == 0 then EmptyIndex
    else
      PrefixNonEmpty(rows);
      var sub := BuildIndex(rows[..|rows| - 1]);
      AddRowWellFormed(sub, rows[|rows| - 1]);
      IdiomsOfPrefix(rows);
      AddRow(sub, rows[|rows| - 1])
  }

  /** Every idiom's `cys` entry is the last syllable of its (last) row. */
  lemma {:induction false} BuildIndexTails(rows: seq<Row>, x: string)
    requires NonEmptyIdioms(rows)
    ensures x in BuildIndex(rows).cys <==> TailSyllable(rows, x).Some?
    ensures x in BuildIndex(rows).cys ==> TailSyllable(rows, x) == Some(BuildIndex(rows).cys[x])
    decreases |rows|
  {
    if |rows| > 0 {
      var prefix := rows[..|rows| - 1];
      PrefixNonEmpty(rows);
      assert BuildIndex(rows) == AddRow(BuildIndex(prefix), rows[|rows| - 1]);
      BuildIndexTails(prefix, x);
    }
  }

  /** A row whose idiom is not repeated later gives that idiom's tail syllable;
      with unique idioms this holds for every row. */
  lemma {:induction false} BuildIndexLastRowWins(rows: seq<Row>, i: nat)
    requires NonEmptyIdioms(rows)
    requires i < |rows|
    requires forall j :: i < j < |rows| ==> rows[j].idiom != rows[i].idiom
    ensures rows[i].idiom in BuildIndex(rows).cys
    ensures BuildIndex(rows).cys[rows[i].idiom] == LastSyllable(rows[i].pinyin)
    decreases |rows|
  {
    BuildIndexTails(rows, rows[i].idiom);
    TailSyllableOfLastRow(rows, i);
  }

  lemma {:induction false} TailSyllableOfLastRow(rows: seq<Row>, i: nat)
    requires i < |rows|
    requires forall j :: i < j < |rows| ==> rows[j].idiom != rows[i].idiom
    ensures TailSyllable(rows, rows[i].idiom) == Some(LastSyllable(rows[i].pinyin))
    decreases |rows|
  {
    if i < |rows| - 1 {
      var prefix := rows[..|rows| - 1];
      assert prefix[i] == rows[i];
      TailSyllableOfLastRow(prefix, i);
    }
  }

  /** The character buckets group the idioms by their first character; a key
      exists only for a character some idiom starts with. */
  lemma {:induction false} BuildIndexByChar(rows: seq<Row>, c: char, x: string)
    requires NonEmptyIdioms(rows)
    ensures x in Bucket(BuildIndex(rows).zis, c) <==> x in Idioms(rows) && x[0] == c
    ensures c in BuildIndex(rows).zis ==> BuildIndex(rows).zis[c] != {}
    decreases |rows|
  {
    if |rows| > 0 {
      var prefix := rows[..|rows| - 1];
      PrefixNonEmpty(rows);
      IdiomsOfPrefix(rows);
      BuildIndexByChar(prefix, c, x);
    }
  }

  /** The idioms of a non-empty table led by a syllable are those of all rows
      but the last, plus the last one when its pinyin starts with it. */
  lemma IdiomsWithLeadSyllableOfPrefix(rows: seq<Row>, s: string)
    requires |rows| > 0
    ensures var last := rows[|rows| - 1];
      IdiomsWithLeadSyllable(rows, s) ==
        IdiomsWithLeadSyllable(rows[..|rows| - 1], s) + (if FirstSyllable(last.pinyin) == s then {last.idiom} else {})
  {
    var prefix := rows[..|rows| - 1];
    assert rows == prefix + [rows[|rows| - 1]];
    assert forall r :: r in rows ==> r in prefix || r == rows[|rows| - 1];
  }

  /** The syllable buckets group the idioms by the first syllable of their
      pinyin; a key exists only for a syllable some row starts with. */
  lemma {:induction false} BuildIndexBySyllable(rows: seq<Row>, s: string, x: string)
    requires NonEmptyIdioms(rows)
    ensures x in Bucket(BuildIndex(rows).yins, s) <==> x in IdiomsWithLeadSyllable(rows, s)
    ensures s in BuildIndex(rows).yins ==> BuildIndex(rows).yins[s] != {}
    decreases |rows|
  {
    if |rows| > 0 {
      var prefix := rows[..|rows| - 1];
      PrefixNonEmpty(rows);
      IdiomsWithLeadSyllableOfPrefix(rows, s);
      BuildIndexBySyllable(prefix, s, x);
    }
  }

  /** `isChengyu`: membership in `cys`.  In a well-formed index an idiom it
      accepts is non-empty and filed under its first character. */
  function IsChengyu(ix: Index, cy: string): (ok: bool)
    ensures ok <==> cy in ix.cys.Keys
    ensures ok && WellFormed(ix) ==> |cy| > 0 && cy in Bucket(ix.zis, cy[0])
  {
    cy in ix.cys
  }

  /** On a built index, `isChengyu` holds exactly of the idioms some row lists. */
  lemma IsChengyuMeansListed(rows: seq<Row>, cy: string)
    requires NonEmptyIdioms(rows)
    ensures IsChengyu(BuildIndex(rows), cy) <==> exists r :: r in rows && r.idiom == cy
  {
  }

  /** `can_connect`: both texts are dictionary idioms and the last character
      of the first is the first character of the second. */
  function CanConnect(ix: Index, a: string, b: string): (ok: bool)
    requires WellFormed(ix)
    ensures ok ==> a in ix.cys && b in ix.cys && a[|a| - 1] == b[0]
    ensures a in ix.cys && b in ix.cys && a[|a| - 1] == b[0] ==> ok
  {
    if IsChengyu(ix, a) && IsChengyu(ix, b) then a[|a| - 1] == b[0] else false
  }

  /** On a built index `can_connect` is decided by the rows alone: both texts
      are listed and the characters meet; no syllable ever makes two idioms
      connect. */
  lemma CanConnectOnRows(rows: seq<Row>, a: string, b: string)
    requires NonEmptyIdioms(rows)
    ensures CanConnect(BuildIndex(rows), a, b) <==>
      a in Idioms(rows) && b in Idioms(rows) && a[|a| - 1] == b[0]
  {
  }
}
