/**
 * The JavaScript string operations the application relies on, with their
 * JavaScript meaning: `split` on one character, `trim`, the quote-stripping
 * `replace(/^"|"$/g, '')`, `includes`, `startsWith`, `toLowerCase`
 * (ASCII letters only) and the default `sort` order on strings.
 */
module Text {

  /** Number of occurrences of `c` in `s`. */
  function Occurrences(s: string, c: char): nat
  {
    if s == [] then 0 else (if s[0] == c then 1 else 0) + Occurrences(s[1..], c)
  }

  /** The pieces glued back together with `sep` between them (the inverse of `Split`). */
  function Join(parts: seq<string>, sep: char): string
    requires |parts| >= 1
  {
    if |parts| == 1 then parts[0] else parts[0] + [sep] + Join(parts[1..], sep)
  }

  /**
   * `s.split(sep)` for a one-character separator: one more piece than there
   * are separators (so `""` gives `[""]` and a trailing separator gives a
   * trailing empty piece) and no piece holds the separator.
   */
  function Split(s: string, sep: char): (parts: seq<string>)
    ensures |parts| == Occurrences(s, sep) + 1
  {
    if s == [] then [""]
    else
      var rest := Split(s[1..], sep);
      if s[0] == sep then [""] + rest
      else [[s[0]] + rest[0]] + rest[1..]
  }

  /** Joining the pieces of a split gives the text back. */
  lemma {:induction false} JoinOfSplit(s: string, sep: char)
    ensures Join(Split(s, sep), sep) == s
  {
    if s != [] {
      JoinOfSplit(s[1..], sep);
      var rest := Split(s[1..], sep);
      if s[0] != sep && |rest| > 1 {
        assert Split(s, sep)[1..] == rest[1..];
      } else if s[0] == sep {
        assert Split(s, sep)[1..] == rest;
      }
    }
  }

  /** No piece holds the separator. */
  lemma {:induction false} SplitPiecesAvoid(s: string, sep: char)
    ensures forall i :: 0 <= i < |Split(s, sep)| ==> sep !in Split(s, sep)[i]
  {
    if s != [] {
      SplitPiecesAvoid(s[1..], sep);
    }
  }

  lemma {:induction false} SplitNoSeparator(s: string, sep: char)
    requires sep !in s
    ensures Split(s, sep) == [s]
  {
    if s != [] {
      assert s == [s[0]] + s[1..];
      SplitNoSeparator(s[1..], sep);
    }
  }

  /** A separator-free piece followed by the separator is split off as one field. */
  lemma {:induction false} SplitAfterPiece(p: string, t: string, sep: char)
    requires sep !in p
    ensures Split(p + [sep] + t, sep) == [p] + Split(t, sep)
  {
    if p == [] {
      assert p + [sep] + t == [sep] + t;
      assert ([sep] + t)[1..] == t;
    } else {
      SplitAfterPiece(p[1..], t, sep);
      assert (p + [sep] + t)[1..] == p[1..] + [sep] + t;
      assert [p[0]] + p[1..] == p;
    }
  }

  /** Splitting a join of separator-free pieces gives the pieces back. */
  lemma {:induction false} SplitOfJoin(parts: seq<string>, sep: char)
    requires |parts| >= 1
    requires forall i :: 0 <= i < |parts| ==> sep !in parts[i]
    ensures Split(Join(parts, sep), sep) == parts
  {
    if |parts| == 1 {
      SplitNoSeparator(parts[0], sep);
    } else {
      SplitOfJoin(parts[1..], sep);
      SplitAfterPiece(parts[0], Join(parts[1..], sep), sep);
      assert parts == [parts[0]] + parts[1..];
    }
  }

  /**
   * The characters `String.prototype.trim` removes: ECMAScript's WhiteSpace
   * (tab, vertical tab, form feed, space, no-break space, the byte order
   * mark and the Unicode space separators) and LineTerminator characters.
   */
  predicate IsSpace(c: char)
  {
    c == '\t' || c == '\n' || c == '\U{000B}' || c == '\U{000C}' || c == '\r' || c == ' '
    || c == '\U{00A0}' || c == '\U{1680}' || ('\U{2000}' <= c <= '\U{200A}')
    || c == '\U{2028}' || c == '\U{2029}' || c == '\U{202F}' || c == '\U{205F}'
    || c == '\U{3000}' || c == '\U{FEFF}'
  }

  /** The number of spaces `s` starts with. */
  function LeadingSpaces(s: string): (n: nat)
    ensures n <= |s|
    ensures n < |s| ==> !IsSpace(s[n])
  {
    if s != [] && IsSpace(s[0]) then 1 + LeadingSpaces(s[1..]) else 0
  }

  /** The leading spaces counted are all spaces. */
  lemma {:induction false} LeadingSpacesAre(s: string)
    ensures forall i :: 0 <= i < LeadingSpaces(s) ==> IsSpace(s[i])
  {
    if s != [] && IsSpace(s[0]) {
      LeadingSpacesAre(s[1..]);
    }
  }

  /** The number of spaces `s` ends with. */
  function TrailingSpaces(s: string): (n: nat)
    ensures n <= |s|
    ensures n < |s| ==> !IsSpace(s[|s| - 1 - n])
  {
    if s != [] && IsSpace(s[|s| - 1]) then 1 + TrailingSpaces(s[..|s| - 1]) else 0
  }

  /** The trailing spaces counted are all spaces. */
  lemma {:induction false} TrailingSpacesAre(s: string)
    ensures forall i :: |s| - TrailingSpaces(s) <= i < |s| ==> IsSpace(s[i])
  {
    if s != [] && IsSpace(s[|s| - 1]) {
      TrailingSpacesAre(s[..|s| - 1]);
    }
  }

  /** A string that is empty or only made of spaces. */
  predicate IsBlank(s: string)
  {
    forall i :: 0 <= i < |s| ==> IsSpace(s[i])
  }

  /** `s.trim()`: no space at either end, and empty exactly for blank strings. */
  function Trim(s: string): (r: string)
    ensures |r| <= |s|
    ensures r == [] || (!IsSpace(r[0]) && !IsSpace(r[|r| - 1]))
  {
    var lead := LeadingSpaces(s);
    if lead == |s| then []
    else
      TrailingSpacesAre(s);
      s[lead..|s| - TrailingSpaces(s)]
  }

  /** Trimming leaves nothing exactly when the string is blank. */
  lemma TrimEmptyIff(s: string)
    ensures Trim(s) == [] <==> IsBlank(s)
  {
    LeadingSpacesAre(s);
    TrailingSpacesAre(s);
  }

  /**
   * The trim is the middle of `s`: what is left once a blank run at the
   * start and a blank run at the end are cut off.
   */
  lemma TrimIsMiddle(s: string)
    ensures exists i :: 0 <= i && i + |Trim(s)| <= |s| && s[i..i + |Trim(s)|] == Trim(s)
                        && IsBlank(s[..i]) && IsBlank(s[i + |Trim(s)|..])
  {
    LeadingSpacesAre(s);
    TrailingSpacesAre(s);
    var i := LeadingSpaces(s);
    var r := Trim(s);
    assert s[i..i + |r|] == r;
    assert IsBlank(s[..i]);
    assert IsBlank(s[i + |r|..]);
  }

  /** A string with no space at either end is its own trim. */
  lemma TrimUnchanged(s: string)
    requires s == [] || (!IsSpace(s[0]) && !IsSpace(s[|s| - 1]))
    ensures Trim(s) == s
  {
  }

  /**
   * `s.replace(/^"|"$/g, '')`: one leading and one trailing double quote are
   * removed, nothing else; a lone `"` becomes empty.
   */
  function StripQuotes(s: string): (r: string)
    ensures |s| >= 2 && s[0] == '"' && s[|s| - 1] == '"' ==> r == s[1..|s| - 1]
    ensures |s| >= 1 && s[0] == '"' && s[|s| - 1] != '"' ==> r == s[1..]
    ensures |s| >= 1 && s[0] != '"' && s[|s| - 1] == '"' ==> r == s[..|s| - 1]
    ensures (s == [] || (s[0] != '"' && s[|s| - 1] != '"')) ==> r == s
    ensures s == "\"" ==> r == ""
  {
    var start := if s != [] && s[0] == '"' then 1 else 0;
    var end := if |s| > start && s[|s| - 1] == '"' then |s| - 1 else |s|;
    s[start..end]
  }

  /** The cell cleaning both CSV readers apply: strip one quote at each end, then trim. */
  function Clean(cell: string): string
  {
    Trim(StripQuotes(cell))
  }

  /** A field that cleaning leaves unchanged: no quote and no space at either end. */
  predicate Bare(f: string)
  {
    f == [] || (f[0] != '"' && f[|f| - 1] != '"' && !IsSpace(f[0]) && !IsSpace(f[|f| - 1]))
  }

  lemma CleanBare(f: string)
    requires Bare(f)
    ensures Clean(f) == f
  {
    TrimUnchanged(f);
  }

  /** Wrapping a bare field in quotes, as a spreadsheet export may, is undone by cleaning. */
  lemma CleanQuoted(f: string)
    requires Bare(f)
    ensures Clean("\"" + f + "\"") == f
  {
    var q := "\"" + f + "\"";
    assert |q| >= 2 && q[0] == '"' && q[|q| - 1] == '"';
    assert q[1..|q| - 1] == f;
    assert StripQuotes(q) == f;
    TrimUnchanged(f);
  }

  /** A field with an opening quote only loses the quote. */
  lemma CleanLeadingQuote(f: string)
    requires f != [] && Bare(f)
    ensures Clean("\"" + f) == f
  {
    var q := "\"" + f;
    assert q[1..] == f;
    assert StripQuotes(q) == f;
    TrimUnchanged(f);
  }

  /** A field after a space, with a closing quote only, loses both. */
  lemma CleanSpacedTrailingQuote(f: string)
    requires f != [] && Bare(f)
    ensures Clean(" " + f + "\"") == f
  {
    var q := " " + f + "\"";
    assert q[..|q| - 1] == " " + f;
    assert StripQuotes(q) == " " + f;
    assert (" " + f)[1..] == f;
    assert LeadingSpaces(" " + f) == 1;
    assert TrailingSpaces(" " + f) == 0;
    TrimUnchanged(f);
  }

  /** Every piece cleaned, in order. */
  function CleanAll(pieces: seq<string>): (cells: seq<string>)
    ensures |cells| == |pieces|
  {
    if pieces == [] then [] else [Clean(pieces[0])] + CleanAll(pieces[1..])
  }

  /** Each cell is its piece cleaned. */
  lemma {:induction false} CleanAllAt(pieces: seq<string>)
    ensures forall i :: 0 <= i < |pieces| ==> CleanAll(pieces)[i] == Clean(pieces[i])
  {
    if pieces != [] {
      CleanAllAt(pieces[1..]);
    }
  }

  /** Cleaning bare cells changes none of them. */
  lemma {:induction false} CleanAllBare(cells: seq<string>)
    requires forall i :: 0 <= i < |cells| ==> Bare(cells[i])
    ensures CleanAll(cells) == cells
  {
    if cells != [] {
      CleanAllBare(cells[1..]);
      CleanBare(cells[0]);
      assert cells == [cells[0]] + cells[1..];
    }
  }

  /** `s.startsWith(prefix)`. */
  predicate StartsWith(s: string, prefix: string)
  {
    |prefix| <= |s| && s[..|prefix|] == prefix
  }

  /** `s.includes(sub)`: `sub` starts at some position of `s`. */
  predicate Contains(s: string, sub: string)
  {
    StartsWith(s, sub) || (s != [] && Contains(s[1..], sub))
  }

  /** `sub` occurs in `s` starting at index `i`. */
  predicate OccursAt(s: string, sub: string, i: int)
  {
    0 <= i && i + |sub| <= |s| && s[i..i + |sub|] == sub
  }

  /** `Contains` holds exactly when `sub` occurs at some index of `s`. */
  lemma {:induction false} ContainsIff(s: string, sub: string)
    ensures Contains(s, sub) <==> exists i :: OccursAt(s, sub, i)
  {
    if s == [] {
      if Contains(s, sub) {
        assert OccursAt(s, sub, 0);
      }
      if exists i :: OccursAt(s, sub, i) {
        var i :| OccursAt(s, sub, i);
        assert sub == [];
      }
    } else {
      ContainsIff(s[1..], sub);
      if Contains(s, sub) {
        if StartsWith(s, sub) {
          assert OccursAt(s, sub, 0);
        } else {
          var j :| OccursAt(s[1..], sub, j);
          assert s[1..][j..j + |sub|] == s[j + 1..j + 1 + |sub|];
          assert OccursAt(s, sub, j + 1);
        }
      }
      if exists i :: OccursAt(s, sub, i) {
        var i :| OccursAt(s, sub, i);
        if i > 0 {
          assert s[1..][i - 1..i - 1 + |sub|] == s[i..i + |sub|];
          assert OccursAt(s[1..], sub, i - 1);
        }
      }
    }
  }

  /** A string that contains `a + b` contains `b`. */
  lemma ContainsSuffix(s: string, a: string, b: string)
    requires Contains(s, a + b)
    ensures Contains(s, b)
  {
    ContainsIff(s, a + b);
    ContainsIff(s, b);
    var i :| OccursAt(s, a + b, i);
    assert s[i + |a|..i + |a| + |b|] == (a + b)[|a|..];
    assert OccursAt(s, b, i + |a|);
  }

  /** Every string contains the empty string. */
  lemma ContainsEmpty(s: string)
    ensures Contains(s, "")
  {
  }

  /** `toLowerCase` restricted to the ASCII letters. */
  function LowerChar(c: char): char
  {
    if 'A' <= c <= 'Z' then (c as int + 32) as char else c
  }

  function Lower(s: string): string
  {
    seq(|s|, i requires 0 <= i < |s| => LowerChar(s[i]))
  }

  /** Two strings that differ only in the case of ASCII letters. */
  predicate CaseVariants(a: string, b: string)
  {
    |a| == |b| && forall i :: 0 <= i < |a| ==> SameLetter(a[i], b[i])
  }

  /** Equal characters, or an ASCII capital and the small letter 32 code points above it. */
  predicate SameLetter(x: char, y: char)
  {
    || x == y
    || ('A' <= x <= 'Z' && y as int == x as int + 32)
    || ('A' <= y <= 'Z' && x as int == y as int + 32)
  }

  lemma CaseVariantsLower(a: string, b: string)
    requires CaseVariants(a, b)
    ensures Lower(a) == Lower(b)
  {
    forall i | 0 <= i < |a|
      ensures Lower(a)[i] == Lower(b)[i]
    {
      assert SameLetter(a[i], b[i]);
    }
  }

  /**
   * The comparison `Array.prototype.sort` uses by default on strings:
   * lexicographic by character code, a proper prefix first.
   */
  predicate Less(a: string, b: string)
  {
    if a == [] then b != []
    else if b == [] then false
    else if a[0] != b[0] then a[0] < b[0]
    else Less(a[1..], b[1..])
  }

  lemma {:induction false} LessIrreflexive(a: string)
    ensures !Less(a, a)
  {
    if a != [] {
      LessIrreflexive(a[1..]);
    }
  }

  lemma {:induction false} LessTransitive(a: string, b: string, c: string)
    requires Less(a, b) && Less(b, c)
    ensures Less(a, c)
  {
    if a != [] && a[0] == b[0] && b[0] == c[0] {
      LessTransitive(a[1..], b[1..], c[1..]);
    }
  }

  lemma {:induction false} LessTotal(a: string, b: string)
    requires a != b
    ensures Less(a, b) || Less(b, a)
  {
    if a != [] && b != [] && a[0] == b[0] {
      assert a == [a[0]] + a[1..] && b == [b[0]] + b[1..];
      LessTotal(a[1..], b[1..]);
    }
  }
}
