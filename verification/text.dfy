/**
 The JavaScript string and array built-ins that the documentation script relies on,
 restricted to what it uses: `split` and `join` with a fixed separator, `indexOf`,
 `toLowerCase` (ASCII letters only), `replace` with a string pattern, `endsWith`,
 and the `filter`/`map` of arrays.
 */
module Text {

  // ---------------------------------------------------------------- sequences

  /** `s.filter(keep)`: the elements of `s` that satisfy `keep`, in their order. */
  function Filter<T(==,!new)>(s: seq<T>, keep: T -> bool): (r: seq<T>)
    ensures |r| <= |s|
  {
    if |s| == 0 then []
    else Filter(s[..|s| - 1], keep) + (if keep(s[|s| - 1]) then [s[|s| - 1]] else [])
  }

  /** `s.map(f)`. */
  function MapSeq<T, U>(s: seq<T>, f: T -> U): (r: seq<U>)
    ensures |r| == |s|
  {
    seq(|s|, i requires 0 <= i < |s| => f(s[i]))
  }

  lemma MapSeqAppend<T, U>(a: seq<T>, b: seq<T>, f: T -> U)
    ensures MapSeq(a + b, f) == MapSeq(a, f) + MapSeq(b, f)
    ensures MapSeq(b, f) == [] <==> b == []
    ensures |b| == 1 ==> MapSeq(b, f) == [f(b[0])]
  {
    assert forall i :: 0 <= i < |a + b| ==> MapSeq(a + b, f)[i] == (MapSeq(a, f) + MapSeq(b, f))[i];
  }

  /** `s.map(f)` with the pieces laid end to end, in the order of `s`. */
  function ConcatMap<T, U>(s: seq<T>, f: T -> seq<U>): seq<U>
  {
    if |s| == 0 then [] else ConcatMap(s[..|s| - 1], f) + f(s[|s| - 1])
  }

  /** Extending a prefix of `s` by one element adds that element's piece. */
  lemma ConcatMapPrefix<T, U>(s: seq<T>, i: nat, f: T -> seq<U>)
    requires i < |s|
    ensures ConcatMap(s[..i + 1], f) == ConcatMap(s[..i], f) + f(s[i])
  {
    assert s[..i + 1][..i] == s[..i];
  }

  /** The pieces of consecutive runs follow one another. */
  lemma {:induction false} ConcatMapAppend<T, U>(a: seq<T>, b: seq<T>, f: T -> seq<U>)
    ensures ConcatMap(a + b, f) == ConcatMap(a, f) + ConcatMap(b, f)
    decreases |b|
  {
    if |b| == 0 {
      assert a + b == a;
    } else {
      assert (a + b)[..|a + b| - 1] == a + b[..|b| - 1];
      ConcatMapAppend(a, b[..|b| - 1], f);
    }
  }

  lemma AppendAssoc<T>(a: seq<T>, b: seq<T>, c: seq<T>, d: seq<T>)
    ensures a + b + c + d == a + (b + (c + d))
  {
  }

  /** Filtering works piece by piece: it keeps the order of the input. */
  lemma {:induction false} FilterAppend<T(!new)>(a: seq<T>, b: seq<T>, keep: T -> bool)
    ensures Filter(a + b, keep) == Filter(a, keep) + Filter(b, keep)
    decreases |b|
  {
    if |b| > 0 {
      var b' := b[..|b| - 1];
      assert (a + b)[..|a + b| - 1] == a + b';
      FilterAppend(a, b', keep);
    } else {
      assert a + b == a;
    }
  }

  /** The filter keeps exactly the elements that satisfy `keep`. */
  lemma {:induction false} FilterMembers<T(!new)>(s: seq<T>, keep: T -> bool)
    ensures forall x :: x in Filter(s, keep) <==> x in s && keep(x)
  {
    if |s| > 0 {
      var init := s[..|s| - 1];
      FilterMembers(init, keep);
      assert s == init + [s[|s| - 1]];
    }
  }

  /** Extending a prefix of `s` by one element keeps that element when it satisfies `keep`. */
  lemma FilterPrefix<T(!new)>(s: seq<T>, i: nat, keep: T -> bool)
    requires i < |s|
    ensures Filter(s[..i + 1], keep) == Filter(s[..i], keep) + if keep(s[i]) then [s[i]] else []
  {
    assert s[..i + 1][..i] == s[..i];
  }

  /** Filtering a sequence that starts with `x`. */
  lemma {:induction false} FilterCons<T(!new)>(x: T, s: seq<T>, keep: T -> bool)
    ensures Filter([x] + s, keep) == (if keep(x) then [x] else []) + Filter(s, keep)
    decreases |s|
  {
    var u := [x] + s;
    if |s| == 0 {
      assert u[..0] == [];
      assert Filter(u, keep) == Filter(u[..0], keep) + (if keep(x) then [x] else []);
    } else {
      var init := s[..|s| - 1];
      assert u[..|u| - 1] == [x] + init;
      FilterCons(x, init, keep);
    }
  }

  /** A filter and its complement split the input between them. */
  lemma {:induction false} FilterPartition<T(!new)>(s: seq<T>, keep: T -> bool, drop: T -> bool)
    requires forall x :: keep(x) <==> !drop(x)
    ensures |Filter(s, keep)| + |Filter(s, drop)| == |s|
  {
    if |s| > 0 {
      FilterPartition(s[..|s| - 1], keep, drop);
    }
  }

  /** Whether a sequence is a prefix of another. */
  predicate StartsWith<T(==)>(s: seq<T>, prefix: seq<T>)
  {
    |prefix| <= |s| && s[..|prefix|] == prefix
  }

  /** `s.endsWith(suffix)`. */
  predicate EndsWith<T(==)>(s: seq<T>, suffix: seq<T>)
  {
    |suffix| <= |s| && s[|s| - |suffix|..] == suffix
  }

  // ---------------------------------------------------------------- searching

  /** `s.indexOf(c)` for a character that occurs in `s`: its first position. */
  function IndexOf(s: string, c: char): (i: nat)
    requires c in s
    ensures i < |s| && s[i] == c
    ensures c !in s[..i]
  {
    if s[0] == c then 0
    else
      var j := IndexOf(s[1..], c);
      assert s[..j + 1] == [s[0]] + s[1..][..j];
      j + 1
  }

  /** Two strings with `c` at the same positions have their first `c` at the same place. */
  lemma {:induction false} IndexOfSamePositions(s: string, t: string, c: char)
    requires |s| == |t|
    requires forall i :: 0 <= i < |s| ==> (s[i] == c <==> t[i] == c)
    ensures c in s <==> c in t
    ensures c in s ==> IndexOf(s, c) == IndexOf(t, c)
  {
    if |s| > 0 {
      IndexOfSamePositions(s[1..], t[1..], c);
      assert s == [s[0]] + s[1..];
      assert t == [t[0]] + t[1..];
    }
  }

  /** The number of times `c` occurs in `s`. */
  function Count(s: string, c: char): nat
  {
    if |s| == 0 then 0 else (if s[0] == c then 1 else 0) + Count(s[1..], c)
  }

  lemma {:induction false} CountAppend(a: string, b: string, c: char)
    ensures Count(a + b, c) == Count(a, c) + Count(b, c)
    decreases |a|
  {
    if |a| == 0 {
      assert a + b == b;
    } else {
      assert (a + b)[1..] == a[1..] + b;
      CountAppend(a[1..], b, c);
    }
  }

  lemma {:induction false} CountAbsent(s: string, c: char)
    ensures Count(s, c) == 0 <==> c !in s
  {
    if |s| > 0 {
      CountAbsent(s[1..], c);
      assert s == [s[0]] + s[1..];
    }
  }

  // ---------------------------------------------------------------- split and join

  /**
   `s.split(sep)` for a one-character separator: the pieces between the occurrences of
   `sep`, read from the left; a separator starts a new, empty piece.
   */
  function Split(s: string, sep: char): (parts: seq<string>)
    ensures |parts| == Count(s, sep) + 1
    decreases |s|
  {
    if |s| == 0 then [""]
    else
      var rest := Split(s[1..], sep);
      if s[0] == sep then [""] + rest else [[s[0]] + rest[0]] + rest[1..]
  }

  /** No piece of a split holds the separator. */
  lemma {:induction false} SplitPiecesFree(s: string, sep: char)
    ensures forall i :: 0 <= i < |Split(s, sep)| ==> sep !in Split(s, sep)[i]
    decreases |s|
  {
    if |s| > 0 {
      SplitPiecesFree(s[1..], sep);
    }
  }

  /** The first piece of a split: the text before the first separator, or all of it. */
  lemma {:induction false} SplitFirst(s: string, sep: char)
    ensures Split(s, sep)[0] == if sep in s then s[..IndexOf(s, sep)] else s
    decreases |s|
  {
    if |s| > 0 && s[0] != sep {
      var t := s[1..];
      SplitFirst(t, sep);
      assert s == [s[0]] + t;
      if sep in t {
        var j := IndexOf(t, sep);
        assert s[..j + 1] == [s[0]] + t[..j];
      }
    }
  }

  /** A separator-free text is the first piece of whatever follows it. */
  lemma {:induction false} SplitAfterFree(a: string, b: string, sep: char)
    requires sep !in a
    ensures var rest := Split(b, sep);
      Split(a + b, sep) == [a + rest[0]] + rest[1..]
    decreases |a|
  {
    var rest := Split(b, sep);
    if |a| > 0 {
      var r := Split(a[1..] + b, sep);
      assert r == [a[1..] + rest[0]] + rest[1..] by {
        SplitAfterFree(a[1..], b, sep);
      }
      assert Split(a + b, sep) == [[a[0]] + r[0]] + r[1..] by {
        assert (a + b)[1..] == a[1..] + b;
        assert a[0] in a;
      }
      assert [a[0]] + (a[1..] + rest[0]) == a + rest[0];
    } else {
      assert a + b == b;
      assert a + rest[0] == rest[0];
      assert [rest[0]] + rest[1..] == rest;
    }
  }

  /** `parts.join(sep)`. */
  function Join(parts: seq<string>, sep: string): string
  {
    if |parts| == 0 then ""
    else if |parts| == 1 then parts[0]
    else parts[0] + sep + Join(parts[1..], sep)
  }

  /** `[first, ...rest].join(sep)` */
  lemma JoinCons(first: string, rest: seq<string>, sep: string)
    ensures Join([first] + rest, sep) == if |rest| == 0 then first else first + sep + Join(rest, sep)
  {
    assert ([first] + rest)[1..] == rest;
  }

  /** A join starts with its first two pieces and the separator between them. */
  lemma JoinStart(first: string, second: string, rest: seq<string>, sep: string)
    ensures StartsWith(Join([first, second] + rest, sep), first + sep + second)
  {
    JoinCons(first, [second] + rest, sep);
    JoinCons(second, rest, sep);
    assert [first, second] + rest == [first] + ([second] + rest);
  }

  /** Joining the pieces of a split with the same separator gives back the text. */
  lemma {:induction false} JoinSplit(s: string, sep: char)
    ensures Join(Split(s, sep), [sep]) == s
    decreases |s|
  {
    if |s| > 0 {
      var t := s[1..];
      var rest := Split(t, sep);
      JoinSplit(t, sep);
      assert s == [s[0]] + t;
      if s[0] == sep {
        JoinCons("", rest, [sep]);
      } else {
        JoinCons(rest[0], rest[1..], [sep]);
        JoinCons([s[0]] + rest[0], rest[1..], [sep]);
        assert [rest[0]] + rest[1..] == rest;
      }
    }
  }

  /** Splitting a join of separator-free pieces gives back the pieces. */
  lemma {:induction false} SplitJoin(parts: seq<string>, sep: char)
    requires |parts| >= 1
    requires forall i :: 0 <= i < |parts| ==> sep !in parts[i]
    ensures Split(Join(parts, [sep]), sep) == parts
    decreases |parts|
  {
    if |parts| > 1 {
      var rest := Join(parts[1..], [sep]);
      assert Join(parts, [sep]) == parts[0] + ([sep] + rest);
      assert Split([sep] + rest, sep) == [""] + Split(rest, sep) by {
        assert ([sep] + rest)[1..] == rest;
      }
      assert Split(parts[0] + ([sep] + rest), sep) == [parts[0]] + Split(rest, sep) by {
        SplitAfterFree(parts[0], [sep] + rest, sep);
        assert parts[0] + "" == parts[0];
      }
      assert Split(rest, sep) == parts[1..] by {
        SplitJoin(parts[1..], sep);
      }
      assert [parts[0]] + parts[1..] == parts;
    } else {
      assert Join(parts, [sep]) == parts[0];
      assert Split(parts[0], sep) == [parts[0]] by {
        SplitAfterFree(parts[0], "", sep);
        assert Split("", sep) == [""];
        assert parts[0] + "" == parts[0];
      }
    }
  }

  /** The last piece of a split, against the last piece of the split of the tail. */
  lemma SplitLastStep(s: string, sep: char)
    requires |s| > 0
    ensures var parts := Split(s, sep);
      var rest := Split(s[1..], sep);
      parts[|parts| - 1] == if s[0] != sep && |rest| == 1 then [s[0]] + rest[0] else rest[|rest| - 1]
  {
  }

  /** A suffix of the tail is a suffix of the whole, preceded by the same character. */
  lemma EndsWithTail(s: string, last: string)
    requires |s| > 0 && EndsWith(s[1..], last)
    ensures EndsWith(s, last)
    ensures |last| < |s| - 1 ==> s[|s| - |last| - 1] == s[1..][|s| - 1 - |last| - 1]
    ensures |last| == |s| - 1 ==> |s| - |last| - 1 == 0
  {
    assert s[|s| - |last|..] == s[1..][|s| - 1 - |last|..];
  }

  /** The text after the last separator, or the whole text when there is none. */
  predicate IsLastPiece(s: string, last: string, sep: char)
  {
    EndsWith(s, last) && (|last| < |s| ==> s[|s| - |last| - 1] == sep)
  }

  /** The last piece of a split is the text after the last separator. */
  lemma {:induction false} SplitLast(s: string, sep: char)
    ensures var parts := Split(s, sep);
      IsLastPiece(s, parts[|parts| - 1], sep)
    decreases |s|
  {
    if |s| > 0 {
      SplitLast(s[1..], sep);
      SplitLastFromTail(s, sep);
    }
  }

  /** One step of `SplitLast`: from the tail of the text to the whole of it. */
  lemma SplitLastFromTail(s: string, sep: char)
    requires |s| > 0
    requires var rest := Split(s[1..], sep);
      IsLastPiece(s[1..], rest[|rest| - 1], sep)
    ensures var parts := Split(s, sep);
      IsLastPiece(s, parts[|parts| - 1], sep)
  {
    var t := s[1..];
    var rest := Split(t, sep);
    var last := rest[|rest| - 1];
    SplitLastStep(s, sep);
    if s[0] != sep && |rest| == 1 {
      assert rest[0] == t by {
        JoinSplit(t, sep);
      }
      assert [s[0]] + rest[0] == s;
      assert s[|s| - |s|..] == s;
    } else {
      EndsWithTail(s, last);
      if s[0] != sep {
        assert last != t by {
          CountAbsent(t, sep);
          SplitPiecesFree(t, sep);
        }
      }
    }
  }

  // ---------------------------------------------------------------- case and replacement

  predicate IsUpperAscii(c: char)
  {
    'A' <= c <= 'Z'
  }

  /** `toLowerCase` of one character, for the ASCII letters. */
  function LowerChar(c: char): (d: char)
    ensures !IsUpperAscii(d)
    ensures IsUpperAscii(c) ==> d as int == c as int + 32
    ensures !IsUpperAscii(c) ==> d == c
  {
    if IsUpperAscii(c) then (c as int + 32) as char else c
  }

  /** `s.toLowerCase()`, for the ASCII letters. */
  function ToLowerAscii(s: string): (r: string)
    ensures |r| == |s|
    ensures forall i :: 0 <= i < |s| ==> r[i] == LowerChar(s[i])
    ensures forall c :: c in r ==> !IsUpperAscii(c)
  {
    seq(|s|, i requires 0 <= i < |s| => LowerChar(s[i]))
  }

  /** `s.replace(pat, rep)` with a one-character string pattern: only the first occurrence changes. */
  function ReplaceFirst(s: string, pat: char, rep: char): (r: string)
    ensures |r| == |s|
    ensures pat !in s ==> r == s
    ensures pat in s ==>
      var i := IndexOf(s, pat);
      && r[i] == rep
      && forall j :: 0 <= j < |s| && j != i ==> r[j] == s[j]
  {
    if pat !in s then s else var i := IndexOf(s, pat); s[..i] + [rep] + s[i + 1..]
  }
}
