/** `Array.prototype.join` with a one-character separator, as the signup form
    uses it to flatten password suggestions; `String.prototype.split`, which
    states what the join keeps; and JavaScript's `length` of a string. */
module Text {

  /** JavaScript's `s.length`: UTF-16 code units, so a character outside the
      Basic Multilingual Plane counts twice. */
  function Utf16Length(s: string): (n: nat)
    ensures |s| <= n <= 2 * |s|
  {
    if |s| == 0 then 0
    else (if s[0] as int > 0xFFFF then 2 else 1) + Utf16Length(s[1..])
  }

  /** A string with no character outside the Basic Multilingual Plane, such
      as any ASCII string, has one code unit per character. */
  lemma {:induction false} Utf16LengthOfBmp(s: string)
    requires forall i :: 0 <= i < |s| ==> s[i] as int <= 0xFFFF
    ensures Utf16Length(s) == |s|
  {
    if |s| > 0 {
      assert forall i :: 0 <= i < |s[1..]| ==> s[1..][i] == s[i + 1];
      Utf16LengthOfBmp(s[1..]);
    }
  }

  /** How many times `c` occurs in `s`. */
  function Occurrences(s: string, c: char): nat
  {
    if |s| == 0 then 0
    else (if s[0] == c then 1 else 0) + Occurrences(s[1..], c)
  }

  /** How many times `c` occurs in all of `ss`. */
  function TotalOccurrences(ss: seq<string>, c: char): nat
  {
    if |ss| == 0 then 0 else Occurrences(ss[0], c) + TotalOccurrences(ss[1..], c)
  }

  /** `ss.join(sep)`: the strings with `sep` between neighbours; `""` for no strings. */
  function Join(ss: seq<string>, sep: char): string
  {
    if |ss| == 0 then ""
    else if |ss| == 1 then ss[0]
    else ss[0] + [sep] + Join(ss[1..], sep)
  }

  /** `s.split(sep)`: the pieces between separators; always at least one piece. */
  function Split(s: string, sep: char): (pieces: seq<string>)
    ensures |pieces| >= 1
  {
    if |s| == 0 then [""]
    else
      var rest := Split(s[1..], sep);
      if s[0] == sep then [""] + rest
      else [[s[0]] + rest[0]] + rest[1..]
  }

  /** No separator in a string: splitting gives the string back whole. */
  lemma {:induction false} SplitWithoutSeparator(s: string, sep: char)
    requires sep !in s
    ensures Split(s, sep) == [s]
  {
    if |s| > 0 {
      assert sep !in s[1..] by {
        forall k | 0 <= k < |s[1..]| ensures s[1..][k] != sep {
          assert s[1..][k] == s[k + 1];
        }
      }
      SplitWithoutSeparator(s[1..], sep);
      assert [s[0]] + s[1..] == s;
    }
  }

  /** Splitting at the first separator. */
  lemma {:induction false} SplitAtFirstSeparator(a: string, sep: char, b: string)
    requires sep !in a
    ensures Split(a + [sep] + b, sep) == [a] + Split(b, sep)
  {
    var s := a + [sep] + b;
    if |a| == 0 {
      assert s == [sep] + b;
      assert s[1..] == b;
    } else {
      assert s[0] == a[0];
      assert s[1..] == a[1..] + [sep] + b;
      assert sep !in a[1..] by {
        forall k | 0 <= k < |a[1..]| ensures a[1..][k] != sep {
          assert a[1..][k] == a[k + 1];
        }
      }
      SplitAtFirstSeparator(a[1..], sep, b);
      assert [a[0]] + a[1..] == a;
    }
  }

  /** The join loses nothing when no piece contains the separator: splitting
      the result gives the pieces back. (`[].join` gives `""`, which splits
      into `[""]`, hence at least one piece.) */
  lemma {:induction false} SplitJoin(ss: seq<string>, sep: char)
    requires |ss| >= 1
    requires forall i :: 0 <= i < |ss| ==> sep !in ss[i]
    ensures Split(Join(ss, sep), sep) == ss
  {
    if |ss| == 1 {
      SplitWithoutSeparator(ss[0], sep);
    } else {
      SplitAtFirstSeparator(ss[0], sep, Join(ss[1..], sep));
      SplitJoin(ss[1..], sep);
      assert [ss[0]] + ss[1..] == ss;
    }
  }

  lemma {:induction false} OccurrencesConcat(a: string, b: string, c: char)
    ensures Occurrences(a + b, c) == Occurrences(a, c) + Occurrences(b, c)
  {
    if |a| > 0 {
      assert (a + b)[0] == a[0];
      assert (a + b)[1..] == a[1..] + b;
      OccurrencesConcat(a[1..], b, c);
    } else {
      assert a + b == b;
    }
  }

  lemma {:induction false} OccursAtLeastOnce(s: string, c: char)
    requires c in s
    ensures Occurrences(s, c) >= 1
  {
    if s[0] != c {
      assert c in s[1..] by {
        var k :| 0 <= k < |s| && s[k] == c;
        assert s[1..][k - 1] == c;
      }
      OccursAtLeastOnce(s[1..], c);
    }
  }

  /** A split gives one piece more than there are separators. */
  lemma {:induction false} SplitPieceCount(s: string, sep: char)
    ensures |Split(s, sep)| == Occurrences(s, sep) + 1
  {
    if |s| > 0 {
      SplitPieceCount(s[1..], sep);
    }
  }

  /** The join adds one separator between each two neighbours. */
  lemma {:induction false} JoinSeparatorCount(ss: seq<string>, sep: char)
    requires |ss| >= 1
    ensures Occurrences(Join(ss, sep), sep) == TotalOccurrences(ss, sep) + |ss| - 1
  {
    if |ss| == 1 {
      assert TotalOccurrences(ss, sep) == Occurrences(ss[0], sep) + TotalOccurrences(ss[1..], sep);
      assert ss[1..] == [];
    } else {
      JoinSeparatorCount(ss[1..], sep);
      OccurrencesConcat(ss[0] + [sep], Join(ss[1..], sep), sep);
      OccurrencesConcat(ss[0], [sep], sep);
      assert Occurrences([sep], sep) == 1 by {
        assert [sep][1..] == [];
      }
    }
  }

  lemma {:induction false} SeparatorInSomePiece(ss: seq<string>, sep: char, i: nat)
    requires i < |ss| && sep in ss[i]
    ensures TotalOccurrences(ss, sep) >= 1
  {
    if i == 0 {
      OccursAtLeastOnce(ss[0], sep);
    } else {
      SeparatorInSomePiece(ss[1..], sep, i - 1);
    }
  }

  /** The join can be undone by a split exactly when there is at least one
      piece and no piece contains the separator: a piece holding the
      separator comes back as several pieces, and `[]` comes back as `[""]`. */
  lemma SplitJoinIff(ss: seq<string>, sep: char)
    ensures Split(Join(ss, sep), sep) == ss
        <==> |ss| >= 1 && forall i :: 0 <= i < |ss| ==> sep !in ss[i]
  {
    if |ss| >= 1 && forall i :: 0 <= i < |ss| ==> sep !in ss[i] {
      SplitJoin(ss, sep);
    } else if |ss| >= 1 {
      var i :| 0 <= i < |ss| && sep in ss[i];
      SeparatorInSomePiece(ss, sep, i);
      JoinSeparatorCount(ss, sep);
      SplitPieceCount(Join(ss, sep), sep);
    }
  }
}
