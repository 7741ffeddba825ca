/** String operations the components use: trimming, case mapping, substring
    search, splitting, joining and the character replacements of the CSV
    export. Case mapping covers the ASCII letters only. */
module Text {

  import opened Types

  /** The characters the runtime's `trim` removes: white space and line terminators. */
  predicate IsSpace(c: char) {
    c == ' ' || c == '\t' || c == '\n' || c == '\r' || c == '\U{000B}' || c == '\U{000C}'
    || c == '\U{00A0}' || c == '\U{1680}' || ('\U{2000}' <= c <= '\U{200A}')
    || c == '\U{2028}' || c == '\U{2029}' || c == '\U{202F}' || c == '\U{205F}'
    || c == '\U{3000}' || c == '\U{FEFF}'
  }

  function TrimStart(s: string): (r: string)
    ensures |r| <= |s| && r == s[|s| - |r|..]
    ensures r == [] || !IsSpace(r[0])
  {
    if s != [] && IsSpace(s[0]) then TrimStart(s[1..]) else s
  }

  function TrimEnd(s: string): (r: string)
    ensures |r| <= |s| && r == s[..|r|]
    ensures r == [] || !IsSpace(r[|r| - 1])
  {
    if s != [] && IsSpace(s[|s| - 1]) then TrimEnd(s[..|s| - 1]) else s
  }

  /** `s` without its leading and trailing white space. */
  function Trim(s: string): (r: string)
    ensures |r| <= |s|
  {
    TrimEnd(TrimStart(s))
  }

  /** Trimming keeps a contiguous part of the input that neither starts nor
      ends with white space, and removes only white space around it. */
  lemma TrimSpec(s: string)
    ensures Trim(s) == s[|s| - |TrimStart(s)|..|s| - |TrimStart(s)| + |Trim(s)|]
    ensures Trim(s) == [] || (!IsSpace(Trim(s)[0]) && !IsSpace(Trim(s)[|Trim(s)| - 1]))
    ensures Trim(s) == [] <==> forall i :: 0 <= i < |s| ==> IsSpace(s[i])
  {
    TrimSlice(s);
    TrimBlank(s);
  }

  lemma TrimSlice(s: string)
    ensures Trim(s) == s[|s| - |TrimStart(s)|..|s| - |TrimStart(s)| + |Trim(s)|]
  {
    var t := TrimStart(s);
    var r := TrimEnd(t);
    var k := |s| - |t|;
    assert Trim(s) == r;
    assert t == s[k..];
    assert r == t[..|r|];
  }

  /** What the start trim drops is white space. */
  lemma {:induction false} TrimStartDropsBlank(s: string)
    ensures forall i :: 0 <= i < |s| - |TrimStart(s)| ==> IsSpace(s[i])
  {
    if s != [] && IsSpace(s[0]) {
      TrimStartDropsBlank(s[1..]);
      forall i | 1 <= i < |s| - |TrimStart(s)|
        ensures IsSpace(s[i])
      {
        assert s[i] == s[1..][i - 1];
      }
    }
  }

  /** What the end trim drops is white space. */
  lemma {:induction false} TrimEndDropsBlank(s: string)
    ensures forall i :: |TrimEnd(s)| <= i < |s| ==> IsSpace(s[i])
  {
    if s != [] && IsSpace(s[|s| - 1]) {
      TrimEndDropsBlank(s[..|s| - 1]);
      forall i | |TrimEnd(s)| <= i < |s| - 1
        ensures IsSpace(s[i])
      {
        assert s[i] == s[..|s| - 1][i];
      }
    }
  }

  lemma TrimBlank(s: string)
    ensures Trim(s) == [] <==> forall i :: 0 <= i < |s| ==> IsSpace(s[i])
  {
    var t := TrimStart(s);
    TrimStartDropsBlank(s);
    TrimEndDropsBlank(t);
    assert Trim(s) == TrimEnd(t);
    if TrimEnd(t) == [] {
      assert t == [];
    } else {
      assert t == s[|s| - |t|..];
      assert !IsSpace(s[|s| - |t|]);
    }
  }

  /** Trimming keeps only characters of the input: what holds of every
      character of `s` holds of every character of its trim. */
  lemma TrimKeepsAll(s: string, p: char -> bool)
    requires forall i :: 0 <= i < |s| ==> p(s[i])
    ensures forall i :: 0 <= i < |Trim(s)| ==> p(Trim(s)[i])
  {
    TrimSlice(s);
    var k := |s| - |TrimStart(s)|;
    forall i | 0 <= i < |Trim(s)|
      ensures p(Trim(s)[i])
    {
      assert Trim(s)[i] == s[k + i];
    }
  }

  /** A string that does not start or end with white space is its own trim. */
  lemma TrimOfTrimmed(s: string)
    requires s == [] || (!IsSpace(s[0]) && !IsSpace(s[|s| - 1]))
    ensures Trim(s) == s
  {
  }

  /** Trimming twice is trimming once. */
  lemma TrimIdempotent(s: string)
    ensures Trim(Trim(s)) == Trim(s)
  {
    TrimSpec(s);
    TrimOfTrimmed(Trim(s));
  }

  function LowerChar(c: char): char {
    if 'A' <= c <= 'Z' then (c as int + 32) as char else c
  }

  function UpperChar(c: char): char {
    if 'a' <= c <= 'z' then (c as int - 32) as char else c
  }

  /** `s` with every ASCII capital replaced by its small letter. */
  function Lower(s: string): (r: string)
    ensures |r| == |s|
    ensures forall i :: 0 <= i < |s| ==> r[i] == LowerChar(s[i])
  {
    seq(|s|, i requires 0 <= i < |s| => LowerChar(s[i]))
  }

  /** `s` with every ASCII small letter replaced by its capital. */
  function Upper(s: string): (r: string)
    ensures |r| == |s|
    ensures forall i :: 0 <= i < |s| ==> r[i] == UpperChar(s[i])
  {
    seq(|s|, i requires 0 <= i < |s| => UpperChar(s[i]))
  }

  /** Lower-casing twice is lower-casing once. */
  lemma LowerIdempotent(s: string)
    ensures Lower(Lower(s)) == Lower(s)
  {
    forall i | 0 <= i < |s| ensures Lower(Lower(s))[i] == Lower(s)[i] {
      assert LowerChar(LowerChar(s[i])) == LowerChar(s[i]);
    }
  }

  /** Upper-casing twice is upper-casing once. */
  lemma UpperIdempotent(s: string)
    ensures Upper(Upper(s)) == Upper(s)
  {
    forall i | 0 <= i < |s| ensures Upper(Upper(s))[i] == Upper(s)[i] {
      assert UpperChar(UpperChar(s[i])) == UpperChar(s[i]);
    }
  }

  /** Lower-casing forgets an earlier upper-casing. */
  lemma LowerUpper(s: string)
    ensures Lower(Upper(s)) == Lower(s)
  {
    forall i | 0 <= i < |s| ensures Lower(Upper(s))[i] == Lower(s)[i] {
      assert LowerChar(UpperChar(s[i])) == LowerChar(s[i]);
    }
  }

  /** Case mapping neither creates nor removes white space, so it commutes
      with trimming: upper-casing before or after the trim gives the same text. */
  lemma {:induction false} UpperTrimCommute(s: string)
    ensures Trim(Upper(s)) == Upper(Trim(s))
  {
    UpperTrimStart(s);
    UpperTrimEnd(TrimStart(s));
  }

  lemma UpperCharSpace(c: char)
    ensures IsSpace(UpperChar(c)) == IsSpace(c)
  {
  }

  lemma {:induction false} UpperTrimStart(s: string)
    ensures TrimStart(Upper(s)) == Upper(TrimStart(s))
  {
    if s != [] {
      UpperCharSpace(s[0]);
      assert Upper(s)[0] == UpperChar(s[0]);
      assert Upper(s)[1..] == Upper(s[1..]);
      if IsSpace(s[0]) {
        UpperTrimStart(s[1..]);
      }
    }
  }

  lemma {:induction false} UpperTrimEnd(s: string)
    ensures TrimEnd(Upper(s)) == Upper(TrimEnd(s))
  {
    if s != [] {
      UpperCharSpace(s[|s| - 1]);
      assert Upper(s)[|s| - 1] == UpperChar(s[|s| - 1]);
      assert Upper(s)[..|s| - 1] == Upper(s[..|s| - 1]);
      if IsSpace(s[|s| - 1]) {
        UpperTrimEnd(s[..|s| - 1]);
      }
    }
  }

  lemma {:induction false} LowerTrimCommute(s: string)
    ensures Trim(Lower(s)) == Lower(Trim(s))
  {
    LowerTrimStart(s);
    LowerTrimEnd(TrimStart(s));
  }

  lemma LowerCharSpace(c: char)
    ensures IsSpace(LowerChar(c)) == IsSpace(c)
  {
  }

  lemma {:induction false} LowerTrimStart(s: string)
    ensures TrimStart(Lower(s)) == Lower(TrimStart(s))
  {
    if s != [] {
      LowerCharSpace(s[0]);
      assert Lower(s)[0] == LowerChar(s[0]);
      assert Lower(s)[1..] == Lower(s[1..]);
      if IsSpace(s[0]) {
        LowerTrimStart(s[1..]);
      }
    }
  }

  lemma {:induction false} LowerTrimEnd(s: string)
    ensures TrimEnd(Lower(s)) == Lower(TrimEnd(s))
  {
    if s != [] {
      LowerCharSpace(s[|s| - 1]);
      assert Lower(s)[|s| - 1] == LowerChar(s[|s| - 1]);
      assert Lower(s)[..|s| - 1] == Lower(s[..|s| - 1]);
      if IsSpace(s[|s| - 1]) {
        LowerTrimEnd(s[..|s| - 1]);
      }
    }
  }

  /** `sub` occurs in `s` starting at position `i`. */
  ghost predicate OccursAt(s: string, sub: string, i: int) {
    0 <= i && i + |sub| <= |s| && s[i..i + |sub|] == sub
  }

  function IsPrefix(p: string, s: string): (r: bool)
    ensures r <==> |p| <= |s| && s[..|p|] == p
  {
    |p| <= |s| && s[..|p|] == p
  }

  /** The runtime's `includes`: `sub` occurs somewhere in `s` (the empty
      string occurs everywhere). */
  function Contains(s: string, sub: string): (r: bool)
    ensures r <==> exists i :: OccursAt(s, sub, i)
  {
    if IsPrefix(sub, s) then
      assert OccursAt(s, sub, 0);
      true
    else if s == [] then
      false
    else
      var r := Contains(s[1..], sub);
      assert forall i :: OccursAt(s[1..], sub, i) ==> OccursAt(s, sub, i + 1);
      assert forall i :: OccursAt(s, sub, i) && i > 0 ==> OccursAt(s[1..], sub, i - 1);
      r
  }

  /** Pieces of `s` between the characters for which `isSep` holds: one more
      piece than there are separators, none of them holding a separator. */
  function Split(s: string, isSep: char -> bool): (r: seq<string>)
    ensures |r| >= 1
    ensures forall k, j :: 0 <= k < |r| && 0 <= j < |r[k]| ==> !isSep(r[k][j])
    decreases |s|
  {
    if s == [] then [[]]
    else
      var rest := Split(s[1..], isSep);
      if isSep(s[0]) then [[]] + rest
      else [[s[0]] + rest[0]] + rest[1..]
  }

  /** A piece free of separators is split into itself alone. */
  lemma SplitSeparatorFree(a: string, isSep: char -> bool)
    requires forall j :: 0 <= j < |a| ==> !isSep(a[j])
    ensures Split(a, isSep) == [a]
  {
    SplitPlain(a, [], isSep);
    assert a + [] == a;
  }

  /** The text up to the first separator is the first piece, and the text
      after it is split in turn: with `SplitSeparatorFree` this fixes the
      pieces of every string. */
  lemma SplitAtSeparator(a: string, c: char, b: string, isSep: char -> bool)
    requires forall j :: 0 <= j < |a| ==> !isSep(a[j])
    requires isSep(c)
    ensures Split(a + [c] + b, isSep) == [a] + Split(b, isSep)
  {
    SplitPlain(a, [c] + b, isSep);
    assert a + [c] + b == a + ([c] + b);
    assert ([c] + b)[1..] == b;
  }

  /** The sum of the lengths of the pieces. */
  function TotalLength(pieces: seq<string>): nat {
    if pieces == [] then 0 else |pieces[0]| + TotalLength(pieces[1..])
  }

  /** The pieces laid end to end with `sep` between neighbours. */
  function Join(sep: string, pieces: seq<string>): (r: string)
    ensures pieces == [] ==> r == []
    ensures |pieces| == 1 ==> r == pieces[0]
  {
    if pieces == [] then []
    else if |pieces| == 1 then pieces[0]
    else pieces[0] + sep + Join(sep, pieces[1..])
  }

  /** The joined text starts with the first piece. */
  lemma JoinStartsWithFirst(sep: string, pieces: seq<string>)
    requires |pieces| >= 1
    ensures |Join(sep, pieces)| >= |pieces[0]|
    ensures Join(sep, pieces)[..|pieces[0]|] == pieces[0]
  {
    if |pieces| >= 2 {
      assert Join(sep, pieces) == pieces[0] + (sep + Join(sep, pieces[1..]));
    }
  }

  /** The joined text is as long as the pieces together plus one separator
      between each two neighbours. */
  lemma {:induction false} JoinLength(sep: string, pieces: seq<string>)
    requires |pieces| >= 1
    ensures |Join(sep, pieces)| == TotalLength(pieces) + |sep| * (|pieces| - 1)
  {
    if |pieces| >= 2 {
      JoinLength(sep, pieces[1..]);
      assert |sep| * (|pieces| - 1) == |sep| + |sep| * (|pieces| - 2);
    }
  }

  /** Joining pieces that hold no separator with a one-character separator
      and splitting again gives back the pieces. */
  lemma {:induction false} SplitJoin(pieces: seq<string>, c: char, isSep: char -> bool)
    requires |pieces| >= 1 && isSep(c)
    requires forall k, j :: 0 <= k < |pieces| && 0 <= j < |pieces[k]| ==> !isSep(pieces[k][j])
    ensures Split(Join([c], pieces), isSep) == pieces
    decreases |pieces|
  {
    if |pieces| == 1 {
      SplitPlain(pieces[0], [], isSep);
      assert pieces[0] + [] == pieces[0];
    } else {
      SplitJoin(pieces[1..], c, isSep);
      SplitPlain(pieces[0], [c] + Join([c], pieces[1..]), isSep);
      assert Join([c], pieces) == pieces[0] + ([c] + Join([c], pieces[1..]));
    }
  }

  /** A separator-free prefix becomes the front of the first piece. */
  lemma {:induction false} SplitPlain(p: string, t: string, isSep: char -> bool)
    requires forall j :: 0 <= j < |p| ==> !isSep(p[j])
    requires t == [] || isSep(t[0])
    ensures t == [] ==> Split(p + t, isSep) == [p]
    ensures t != [] ==> Split(p + t, isSep) == [p] + Split(t[1..], isSep)
    decreases |p|
  {
    if p == [] {
      assert p + t == t;
    } else {
      SplitPlain(p[1..], t, isSep);
      assert (p + t)[0] == p[0] && !isSep(p[0]);
      assert (p + t)[1..] == p[1..] + t;
      assert p == [p[0]] + p[1..];
    }
  }

  /** `s` with every character `c` removed. */
  function RemoveChar(s: string, c: char): (r: string)
    ensures c !in r
    ensures multiset(r)[c] == 0 && forall d :: d != c ==> multiset(r)[d] == multiset(s)[d]
  {
    if s == [] then []
    else
      assert s == [s[0]] + s[1..];
      (if s[0] == c then [] else [s[0]]) + RemoveChar(s[1..], c)
  }

  /** Removing a character the string does not hold changes nothing. */
  lemma {:induction false} RemoveAbsentChar(s: string, c: char)
    requires c !in s
    ensures RemoveChar(s, c) == s
  {
    if s != [] {
      assert s[0] != c && c !in s[1..];
      RemoveAbsentChar(s[1..], c);
      assert s == [s[0]] + s[1..];
    }
  }

  /** `s` with every double quote written twice, as a quoted CSV cell needs. */
  function DoubleQuotes(s: string): (r: string)
    ensures |r| == |s| + multiset(s)['"']
  {
    if s == [] then []
    else
      assert s == [s[0]] + s[1..];
      (if s[0] == '"' then "\"\"" else [s[0]]) + DoubleQuotes(s[1..])
  }

  /** The text of a quoted CSV cell body: a doubled quote stands for one
      quote; a lone quote ends the cell early, which makes the cell invalid. */
  function UndoubleQuotes(s: string): (r: Option<string>)
  {
    if s == [] then Some([])
    else if s[0] == '"' then
      if |s| >= 2 && s[1] == '"' then
        match UndoubleQuotes(s[2..])
        case Some(t) => Some("\"" + t)
        case None => None
      else None
    else
      match UndoubleQuotes(s[1..])
      case Some(t) => Some([s[0]] + t)
      case None => None
  }

  /** Doubling the quotes is undone by reading the cell back. */
  lemma {:induction false} QuotesRoundTrip(s: string)
    ensures UndoubleQuotes(DoubleQuotes(s)) == Some(s)
  {
    if s != [] {
      QuotesRoundTrip(s[1..]);
      var d := DoubleQuotes(s);
      if s[0] == '"' {
        assert d == "\"\"" + DoubleQuotes(s[1..]);
        assert d[0] == '"' && d[1] == '"' && d[2..] == DoubleQuotes(s[1..]);
        assert s == "\"" + s[1..];
      } else {
        assert d == [s[0]] + DoubleQuotes(s[1..]);
        assert d[0] == s[0] && d[1..] == DoubleQuotes(s[1..]);
        assert s == [s[0]] + s[1..];
      }
    }
  }

  /** A body without quotes reads back as itself. */
  lemma {:induction false} UndoubleQuotesPlain(s: string)
    requires '"' !in s
    ensures UndoubleQuotes(s) == Some(s)
  {
    if s != [] {
      assert s[0] != '"' && '"' !in s[1..];
      UndoubleQuotesPlain(s[1..]);
      assert s == [s[0]] + s[1..];
    }
  }

  /** Reading a body back keeps one quote for every two, so a readable body
      holds an even number of quotes. */
  lemma {:induction false} UndoubleQuotesCount(s: string)
    ensures UndoubleQuotes(s).Some? ==> multiset(s)['"'] == 2 * multiset(UndoubleQuotes(s).value)['"']
  {
    if s != [] && UndoubleQuotes(s).Some? {
      var t := UndoubleQuotes(s).value;
      if s[0] == '"' {
        var rest := s[2..];
        UndoubleQuotesCount(rest);
        var u := UndoubleQuotes(rest).value;
        assert s == "\"\"" + rest;
        assert t == "\"" + u;
        assert multiset(s) == multiset("\"\"") + multiset(rest);
        assert multiset(t) == multiset("\"") + multiset(u);
      } else {
        var rest := s[1..];
        UndoubleQuotesCount(rest);
        var u := UndoubleQuotes(rest).value;
        assert s == [s[0]] + rest;
        assert t == [s[0]] + u;
        assert multiset(s) == multiset([s[0]]) + multiset(rest);
        assert multiset(t) == multiset([s[0]]) + multiset(u);
      }
    }
  }

  /** A body holding an odd number of quotes, a single lone quote among
      them, cannot be read back as one cell. */
  lemma LoneQuoteUnreadable(s: string)
    ensures multiset(s)['"'] % 2 == 1 ==> UndoubleQuotes(s) == None
  {
    UndoubleQuotesCount(s);
    if UndoubleQuotes(s).Some? {
      Even(multiset(s)['"'], multiset(UndoubleQuotes(s).value)['"']);
    }
  }

  lemma Even(n: int, half: int)
    requires n == 2 * half
    ensures n % 2 == 0
  {
  }
}
