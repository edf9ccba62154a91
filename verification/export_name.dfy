/** The name under which the held artifact is downloaded: the title with every
    maximal run of white space replaced by one underscore, lower-cased, with
    the extension `.html` appended. Lower-casing is modelled on ASCII letters
    only; white space is JavaScript's `\s` class (Text.IsSpace). */
module ExportName {
  import opened Text

  const Extension: string := ".html"

  predicate IsUpperAscii(c: char)
  {
    'A' <= c <= 'Z'
  }

  /** No character of `s` is an upper-case ASCII letter. */
  predicate NoUpperAscii(s: string)
  {
    forall i :: 0 <= i < |s| ==> !IsUpperAscii(s[i])
  }

  /** ASCII case mapping of one character: `A`..`Z` become `a`..`z` in the
      same alphabetical position, every other character is kept. */
  function LowerChar(c: char): (d: char)
    ensures !IsUpperAscii(d)
    ensures IsUpperAscii(c) ==> 'a' <= d <= 'z' && d as int - 'a' as int == c as int - 'A' as int
    ensures !IsUpperAscii(c) ==> d == c
  {
    if IsUpperAscii(c) then (c as int - 'A' as int + 'a' as int) as char else c
  }

  /** `toLowerCase`, restricted to ASCII letters. */
  function Lower(s: string): (r: string)
    ensures |r| == |s| && NoUpperAscii(r)
    ensures forall i :: 0 <= i < |s| ==> r[i] == LowerChar(s[i])
    ensures forall i :: 0 <= i < |s| ==> (IsSpace(r[i]) <==> IsSpace(s[i]))
    ensures forall i :: 0 <= i < |s| && !IsUpperAscii(s[i]) ==> r[i] == s[i]
  {
    seq(|s|, i requires 0 <= i < |s| => LowerChar(s[i]))
  }

  /** `replace(/\s+/g, '_')`, scanning left to right: `inRun` says that the
      previous character was white space, whose run has already produced its
      underscore. */
  function CollapseFrom(s: string, inRun: bool): (r: string)
    ensures NoSpace(r)
    ensures |r| <= |s|
  {
    if s == [] then []
    else if !IsSpace(s[0]) then [s[0]] + CollapseFrom(s[1..], false)
    else if inRun then CollapseFrom(s[1..], true)
    else "_" + CollapseFrom(s[1..], true)
  }

  /** Each maximal run of white space of `s` becomes one underscore; every
      other character is kept, in order. */
  function CollapseSpaces(s: string): (r: string)
    ensures NoSpace(r)
    ensures |r| <= |s|
    ensures r == [] <==> s == []
  {
    CollapseFrom(s, false)
  }

  /** The part of the file name before the extension: no white space, no
      upper-case ASCII letter, never longer than the title and empty only for
      the empty title. */
  function FileStem(title: string): (stem: string)
    ensures NoSpace(stem) && NoUpperAscii(stem)
    ensures |stem| <= |title| && (stem == [] <==> title == [])
  {
    Lower(CollapseSpaces(title))
  }

  /** The `download` attribute of the export link. */
  function FileName(title: string): (name: string)
    ensures |name| >= 5 && name[|name| - 5..] == ".html"
    ensures NoSpace(name) && NoUpperAscii(name)
  {
    var stem := FileStem(title);
    assert (stem + Extension)[|stem|..] == Extension;
    stem + Extension
  }

  /** Whether the scan is inside a white-space run after reading `s`. */
  function EndsInRun(s: string, inRun: bool): bool
  {
    if s == [] then inRun else IsSpace(s[|s| - 1])
  }

  /** The scan over a concatenation is the scan over the first part followed
      by the scan over the second, resumed in the state the first left. */
  lemma {:induction false} CollapseFromAppend(a: string, b: string, inRun: bool)
    ensures CollapseFrom(a + b, inRun) == CollapseFrom(a, inRun) + CollapseFrom(b, EndsInRun(a, inRun))
    decreases |a|
  {
    if a == [] {
      assert a + b == b;
    } else {
      var rest := a[1..];
      assert (a + b)[0] == a[0] && (a + b)[1..] == rest + b;
      var next := IsSpace(a[0]);
      CollapseFromAppend(rest, b, next);
      assert EndsInRun(rest, next) == EndsInRun(a, inRun) by {
        if rest != [] { assert rest[|rest| - 1] == a[|a| - 1]; }
      }
      if !IsSpace(a[0]) {
        Associative([a[0]], CollapseFrom(rest, false), CollapseFrom(b, EndsInRun(a, inRun)));
      } else if !inRun {
        Associative("_", CollapseFrom(rest, true), CollapseFrom(b, EndsInRun(a, inRun)));
      }
    }
  }

  lemma Associative(x: string, y: string, z: string)
    ensures x + y + z == x + (y + z)
  {
  }

  /** A title without white space passes the collapsing step unchanged. */
  lemma {:induction false} CollapseKeepsSpaceFree(s: string)
    requires NoSpace(s)
    ensures CollapseSpaces(s) == s
    decreases |s|
  {
    if s != [] {
      assert !IsSpace(s[0]);
      assert NoSpace(s[1..]) by {
        forall i | 0 <= i < |s| - 1 ensures !IsSpace(s[1..][i]) {
          assert s[1..][i] == s[i + 1];
        }
      }
      CollapseKeepsSpaceFree(s[1..]);
      assert [s[0]] + s[1..] == s;
    }
  }

  /** Inside a run, further white space produces nothing. */
  lemma {:induction false} CollapseInsideRun(w: string)
    requires IsBlank(w)
    ensures CollapseFrom(w, true) == []
    decreases |w|
  {
    if w != [] {
      assert IsBlank(w[1..]) by {
        forall i | 0 <= i < |w| - 1 ensures IsSpace(w[1..][i]) {
          assert w[1..][i] == w[i + 1];
        }
      }
      CollapseInsideRun(w[1..]);
    }
  }

  /** A non-empty run made only of white space becomes exactly one `_`. */
  lemma CollapseBlankRun(w: string)
    requires w != [] && IsBlank(w)
    ensures CollapseSpaces(w) == "_"
  {
    assert IsBlank(w[1..]) by {
      forall i | 0 <= i < |w| - 1 ensures IsSpace(w[1..][i]) {
        assert w[1..][i] == w[i + 1];
      }
    }
    CollapseInsideRun(w[1..]);
  }

  /** Collapsing distributes over a concatenation that does not join two
      white-space runs into one. */
  lemma CollapseAppend(a: string, b: string)
    requires a == [] || b == [] || !IsSpace(a[|a| - 1]) || !IsSpace(b[0])
    ensures CollapseSpaces(a + b) == CollapseSpaces(a) + CollapseSpaces(b)
  {
    CollapseFromAppend(a, b, false);
  }

  /** The defining property of the collapsing step: a maximal run of white
      space between two parts maps to exactly one `_`, and the parts are
      collapsed independently. */
  lemma CollapseMaximalRun(a: string, w: string, b: string)
    requires a == [] || !IsSpace(a[|a| - 1])
    requires w != [] && IsBlank(w)
    requires b == [] || !IsSpace(b[0])
    ensures CollapseSpaces(a + w + b) == CollapseSpaces(a) + "_" + CollapseSpaces(b)
  {
    CollapseAppend(w, b);
    CollapseBlankRun(w);
    Associative(a, w, b);
    CollapseAppend(a, w + b);
    Associative(CollapseSpaces(a), "_", CollapseSpaces(b));
  }

  /** The last character of a collapsed string is `_` when the input ends in
      white space, and the input's last character otherwise. */
  lemma {:induction false} CollapseLast(s: string)
    requires s != []
    ensures CollapseSpaces(s) != []
    ensures CollapseSpaces(s)[|CollapseSpaces(s)| - 1] == if IsSpace(s[|s| - 1]) then '_' else s[|s| - 1]
    decreases |s|
  {
    var init, c := s[..|s| - 1], s[|s| - 1];
    assert s == init + [c];
    CollapseFromAppend(init, [c], false);
    var flag := EndsInRun(init, false);
    if IsSpace(c) && flag {
      CollapseLast(init);
    }
  }

  /** No trimming happens: white space at either end of the title leaves an
      underscore at that end of the file stem, and a non-blank end keeps its
      (lower-cased) character. */
  lemma FileStemEnds(title: string)
    requires title != []
    ensures FileStem(title) != []
    ensures FileStem(title)[0] == if IsSpace(title[0]) then '_' else LowerChar(title[0])
    ensures FileStem(title)[|FileStem(title)| - 1]
         == if IsSpace(title[|title| - 1]) then '_' else LowerChar(title[|title| - 1])
  {
    CollapseLast(title);
    var c := CollapseSpaces(title);
    assert Lower(c)[|c| - 1] == LowerChar(c[|c| - 1]);
  }

  /** Deriving the stem a second time changes nothing: the stem has no white
      space left and is already lower case. */
  lemma FileStemIdempotent(title: string)
    ensures FileStem(FileStem(title)) == FileStem(title)
  {
    var stem := FileStem(title);
    CollapseKeepsSpaceFree(stem);
    assert Lower(stem) == stem;
  }

  /** Lower-casing works character by character, so it distributes over
      concatenation. */
  lemma LowerAppend(a: string, b: string)
    ensures Lower(a + b) == Lower(a) + Lower(b)
  {
  }

  /** Two words separated by one space (a title such as "Fourier Series")
      give the two lower-cased words joined by `_`, then `.html`. */
  lemma TwoWordFileName(x: string, y: string)
    requires NoSpace(x) && NoSpace(y)
    ensures FileName(x + " " + y) == Lower(x) + "_" + Lower(y) + ".html"
  {
    var t := x + " " + y;
    var c := x + "_" + y;
    assert CollapseSpaces(t) == c by {
      CollapseMaximalRun(x, " ", y);
      CollapseKeepsSpaceFree(x);
      CollapseKeepsSpaceFree(y);
    }
    assert Lower(c) == Lower(x) + "_" + Lower(y) by {
      LowerAppend(x + "_", y);
      LowerAppend(x, "_");
    }
  }

  lemma PaddedTitleCollapsed()
    ensures CollapseSpaces("  A  B ") == "_A_B_"
  {
  }

  lemma PaddedTitleLowered()
    ensures Lower("_A_B_") == "_a_b_"
  {
  }

  /** A title padded with white space keeps an underscore at each end, and
      the inner double space still becomes one underscore. */
  lemma PaddedTitleName()
    ensures FileName("  A  B ") == "_a_b_.html"
  {
    PaddedTitleCollapsed();
    PaddedTitleLowered();
  }
}
