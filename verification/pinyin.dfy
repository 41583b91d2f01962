/** The pinyin column of the dictionary is a space-separated list of
    syllables.  The index uses its first and last field, obtained with
    Python's `str.split(" ")`, which keeps empty fields. */
module Pinyin {

  /** Python's `s.split(" ")`: the fields between single spaces, empty fields
      included; `"".split(" ")` is `[""]`. */
  function Split(s: string): (fields: seq<string>)
    ensures |fields| >= 1
    ensures forall i :: 0 <= i < |fields| ==> ' ' !in fields[i]
    decreases |s|
  {
    if |s| == 0 then [""]
    else if s[0] == ' ' then [""] + Split(s[1..])
    else
      var rest := Split(s[1..]);
      assert forall i :: 1 <= i < |rest| ==> ([[s[0]] + rest[0]] + rest[1..])[i] == rest[i];
      [[s[0]] + rest[0]] + rest[1..]
  }

  /** Python's `" ".join(fields)`. */
  function Join(fields: seq<string>): string
    decreases |fields|
  {
    if |fields| == 0 then ""
    else if |fields| == 1 then fields[0]
    else fields[0] + " " + Join(fields[1..])
  }

  /** The leading syllable, `pinyin.split(" ")[0]`: the longest space-free
      prefix of the pinyin. */
  function FirstSyllable(pinyin: string): (f: string)
    ensures f <= pinyin
    ensures ' ' !in f
    ensures f == pinyin || pinyin[|f|] == ' '
  {
    LeadingField(pinyin);
    Split(pinyin)[0]
  }

  /** The trailing syllable, `pinyin.split(" ")[-1]`: the longest space-free
      suffix of the pinyin. */
  function LastSyllable(pinyin: string): (l: string)
    ensures |l| <= |pinyin| && pinyin[|pinyin| - |l|..] == l
    ensures ' ' !in l
    ensures l == pinyin || pinyin[|pinyin| - |l| - 1] == ' '
  {
    TrailingField(pinyin);
    LastField(pinyin)
  }

  /** Joining the fields with single spaces gives back the original text. */
  lemma {:induction false} JoinSplit(s: string)
    ensures Join(Split(s)) == s
    decreases |s|
  {
    if |s| == 0 {
    } else if s[0] == ' ' {
      JoinSplit(s[1..]);
      assert s == [' '] + s[1..];
    } else {
      var rest := Split(s[1..]);
      JoinSplit(s[1..]);
      if |rest| == 1 {
        assert s == [s[0]] + s[1..];
      } else {
        assert Join(rest) == rest[0] + " " + Join(rest[1..]);
        assert Split(s)[1..] == rest[1..];
        assert s == [s[0]] + s[1..];
      }
    }
  }

  /** Text without spaces is a single field. */
  lemma {:induction false} SplitWithoutSpace(s: string)
    requires ' ' !in s
    ensures Split(s) == [s]
    decreases |s|
  {
    if |s| > 0 {
      assert ' ' !in s[1..] by {
        forall i | 0 <= i < |s[1..]| ensures s[1..][i] != ' ' {
          assert s[1..][i] == s[i + 1];
        }
      }
      SplitWithoutSpace(s[1..]);
      assert s == [s[0]] + s[1..];
    }
  }

  /** The first field is the longest space-free prefix of the text. */
  lemma {:induction false} LeadingField(s: string)
    ensures var f := Split(s)[0];
      && f <= s
      && (f == s || s[|f|] == ' ')
    decreases |s|
  {
    if |s| > 0 && s[0] != ' ' {
      var tail := s[1..];
      LeadingField(tail);
      assert Split(s)[0] == [s[0]] + Split(tail)[0];
      assert s == [s[0]] + tail;
    }
  }

  /** The last field of `Split(s)`. */
  function LastField(s: string): string {
    var fields := Split(s);
    fields[|fields| - 1]
  }

  /** The last field is the longest space-free suffix of the text. */
  lemma {:induction false} TrailingField(pinyin: string)
    ensures var l := LastField(pinyin);
      && |l| <= |pinyin|
      && pinyin[|pinyin| - |l|..] == l
      && (l == pinyin || pinyin[|pinyin| - |l| - 1] == ' ')
    decreases |pinyin|
  {
    if |pinyin| > 0 {
      var tail := pinyin[1..];
      TrailingField(tail);
      if pinyin[0] == ' ' {
        LastFieldAfterSpace(pinyin);
        SuffixOfTail(pinyin, LastField(pinyin));
      } else if |Split(tail)| == 1 {
        LastFieldOfOneField(pinyin);
      } else {
        LastFieldOfSeveralFields(pinyin);
        SuffixOfTail(pinyin, LastField(pinyin));
      }
    }
  }

  /** A leading space only adds an empty first field. */
  lemma LastFieldAfterSpace(p: string)
    requires |p| > 0 && p[0] == ' '
    ensures LastField(p) == LastField(p[1..])
  {
    assert Split(p) == [""] + Split(p[1..]);
  }

  /** When the rest of the text is one field, the whole text is one field. */
  lemma LastFieldOfOneField(p: string)
    requires |p| > 0 && p[0] != ' '
    requires |Split(p[1..])| == 1
    ensures LastField(p) == p
  {
    JoinSplit(p[1..]);
    assert p == [p[0]] + p[1..];
  }

  /** When the rest of the text holds several fields, the last field is that
      of the rest, and is not all of the rest. */
  lemma LastFieldOfSeveralFields(p: string)
    requires |p| > 0 && p[0] != ' '
    requires |Split(p[1..])| > 1
    ensures LastField(p) == LastField(p[1..])
    ensures LastField(p) != p[1..]
  {
    var rest := Split(p[1..]);
    assert Split(p) == [[p[0]] + rest[0]] + rest[1..];
    if ' ' !in p[1..] {
      SplitWithoutSpace(p[1..]);
    }
  }

  /** A suffix of `p[1..]` is a suffix of `p`, preceded by the same character
      unless it is all of `p[1..]`. */
  lemma SuffixOfTail(p: string, l: string)
    requires |p| > 0
    requires |l| <= |p| - 1 && p[1..][|p| - 1 - |l|..] == l
    ensures p[|p| - |l|..] == l
    ensures l != p[1..] ==> p[|p| - |l| - 1] == p[1..][|p| - 1 - |l| - 1]
    ensures l == p[1..] ==> p[|p| - |l| - 1] == p[0]
  {
    assert p[|p| - |l|..] == p[1..][|p| - 1 - |l|..];
  }

  /** The text splits into several fields exactly when it holds a space. */
  lemma SeveralFieldsIffSpace(s: string)
    ensures |Split(s)| >= 2 <==> ' ' in s
  {
    if ' ' in s {
      SplitHasSeveralFieldsWithSpace(s);
    } else {
      SplitWithoutSpace(s);
    }
  }

  /** Text holding a space splits into at least two fields. */
  lemma {:induction false} SplitHasSeveralFieldsWithSpace(s: string)
    requires ' ' in s
    ensures |Split(s)| >= 2
    decreases |s|
  {
    if s[0] != ' ' {
      assert ' ' in s[1..] by {
        var i :| 0 <= i < |s| && s[i] == ' ';
        assert s[1..][i - 1] == ' ';
      }
      SplitHasSeveralFieldsWithSpace(s[1..]);
    }
  }
}
