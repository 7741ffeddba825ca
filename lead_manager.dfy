/** The administrator's lead screen: importing a pasted list of phone numbers
    as leads for one moderator, turning a 1-based serial-number range into the
    list positions to reassign, and showing a moderator's name. */
module LeadManager {
  import opened Types
  import opened Lists
  import opened Text

  /** The shortest piece of the pasted text that counts as a phone number. */
  const MinNumberLength := 10

  /** The name shown for a moderator id: the name of the first moderator with
      that id, or `Unknown` when there is none or the name is empty. */
  function GetModName(moderators: seq<User>, id: string): (r: string)
    ensures r != []
    ensures (forall i :: 0 <= i < |moderators| ==> moderators[i].id != id) ==> r == "Unknown"
    ensures r != "Unknown" ==> exists i :: 0 <= i < |moderators| && moderators[i].id == id && moderators[i].name == r
    ensures forall i :: 0 <= i < |moderators| && moderators[i].id == id && (forall j :: 0 <= j < i ==> moderators[j].id != id)
                ==> r == (if moderators[i].name != [] then moderators[i].name else "Unknown")
  {
    match FindFirst(moderators, (m: User) => m.id == id)
    case Some(m) => if m.name != [] then m.name else "Unknown"
    case None => "Unknown"
  }

  /** A newline or a comma separates two numbers in the pasted text. */
  predicate IsNumberSeparator(c: char) {
    c == '\n' || c == ','
  }

  function TrimAll(pieces: seq<string>): (r: seq<string>)
    ensures |r| == |pieces| && forall i :: 0 <= i < |r| ==> r[i] == Trim(pieces[i])
  {
    seq(|pieces|, i requires 0 <= i < |pieces| => Trim(pieces[i]))
  }

  function LongEnoughTest(): string -> bool {
    (n: string) => |n| >= MinNumberLength
  }

  /** The numbers in the pasted text: split at newlines and commas, each piece
      trimmed, and only pieces of at least 10 characters kept, in input order. */
  function ParseNumbers(text: string): (r: seq<string>)
    ensures forall i :: 0 <= i < |r| ==> |r[i]| >= MinNumberLength
  {
    Filter(TrimAll(Split(text, IsNumberSeparator)), LongEnoughTest())
  }

  /** What one piece of the pasted text contributes: its trim, when that is
      long enough to be a number. */
  function PieceNumbers(piece: string): (r: seq<string>)
    ensures |r| <= 1
    ensures forall i :: 0 <= i < |r| ==> r[i] == Trim(piece) && |r[i]| >= MinNumberLength
    ensures |Trim(piece)| >= MinNumberLength ==> |r| == 1
  {
    if |Trim(piece)| >= MinNumberLength then [Trim(piece)] else []
  }

  /** Text without a newline or a comma is one piece. */
  lemma ParseNumbersOnePiece(a: string)
    requires forall j :: 0 <= j < |a| ==> !IsNumberSeparator(a[j])
    ensures ParseNumbers(a) == PieceNumbers(a)
  {
    SplitSeparatorFree(a, IsNumberSeparator);
    assert TrimAll([a]) == [Trim(a)];
    PieceNumbersFilter(a);
  }

  /** The text up to the first newline or comma gives its number, if any,
      followed by the numbers of the rest: with `ParseNumbersOnePiece` this
      fixes the result, in input order, for every text. */
  lemma ParseNumbersStep(a: string, c: char, b: string)
    requires forall j :: 0 <= j < |a| ==> !IsNumberSeparator(a[j])
    requires IsNumberSeparator(c)
    ensures ParseNumbers(a + [c] + b) == PieceNumbers(a) + ParseNumbers(b)
  {
    var rest := Split(b, IsNumberSeparator);
    var long := LongEnoughTest();
    calc {
      ParseNumbers(a + [c] + b);
      { SplitAtSeparator(a, c, b, IsNumberSeparator); }
      Filter(TrimAll([a] + rest), long);
      { TrimAllCons(a, rest); }
      Filter([Trim(a)] + TrimAll(rest), long);
      { FilterAppend([Trim(a)], TrimAll(rest), long); }
      Filter([Trim(a)], long) + Filter(TrimAll(rest), long);
      { PieceNumbersFilter(a); }
      PieceNumbers(a) + ParseNumbers(b);
    }
  }

  lemma PieceNumbersFilter(a: string)
    ensures Filter([Trim(a)], LongEnoughTest()) == PieceNumbers(a)
  {
  }

  lemma TrimAllCons(a: string, rest: seq<string>)
    ensures TrimAll([a] + rest) == [Trim(a)] + TrimAll(rest)
  {
    var l, r := TrimAll([a] + rest), [Trim(a)] + TrimAll(rest);
    assert |l| == |r|;
    forall i | 0 <= i < |l| ensures l[i] == r[i] {
      if i > 0 {
        assert ([a] + rest)[i] == rest[i - 1];
      }
    }
  }

  /** Every kept number is trimmed already. */
  lemma ParsedNumbersTrimmed(text: string)
    ensures forall i :: 0 <= i < |ParseNumbers(text)| ==> Trim(ParseNumbers(text)[i]) == ParseNumbers(text)[i]
  {
    var pieces := Split(text, IsNumberSeparator);
    var trimmed := TrimAll(pieces);
    var r := ParseNumbers(text);
    forall i | 0 <= i < |r| ensures Trim(r[i]) == r[i] {
      assert r[i] in trimmed;
      var k :| 0 <= k < |trimmed| && trimmed[k] == r[i];
      TrimIdempotent(pieces[k]);
    }
  }

  /** Trimming a piece free of separators leaves it free of separators. */
  lemma TrimNoSeparator(s: string)
    requires forall j :: 0 <= j < |s| ==> !IsNumberSeparator(s[j])
    ensures forall j :: 0 <= j < |Trim(s)| ==> !IsNumberSeparator(Trim(s)[j])
  {
    TrimSpec(s);
  }

  /** No kept number holds a separator. */
  lemma ParsedNumbersHaveNoSeparator(text: string)
    ensures forall i, j :: 0 <= i < |ParseNumbers(text)| && 0 <= j < |ParseNumbers(text)[i]| ==> !IsNumberSeparator(ParseNumbers(text)[i][j])
  {
    var pieces := Split(text, IsNumberSeparator);
    var r := ParseNumbers(text);
    var trimmed := TrimAll(pieces);
    forall i | 0 <= i < |r| ensures forall j :: 0 <= j < |r[i]| ==> !IsNumberSeparator(r[i][j]) {
      assert r[i] in trimmed;
      var k :| 0 <= k < |trimmed| && trimmed[k] == r[i];
      TrimNoSeparator(pieces[k]);
    }
  }

  /** A number as the import keeps it: long enough, trimmed, no separator. */
  predicate CleanNumber(n: string) {
    |n| >= MinNumberLength && Trim(n) == n && forall j :: 0 <= j < |n| ==> !IsNumberSeparator(n[j])
  }

  /** Numbers that are already clean pasted one per line are imported
      exactly, in order. */
  lemma {:induction false} ParseNumbersOfLines(numbers: seq<string>)
    requires |numbers| >= 1
    requires forall i :: 0 <= i < |numbers| ==> CleanNumber(numbers[i])
    ensures ParseNumbers(Join("\n", numbers)) == numbers
  {
    SplitLines(numbers);
    ParseCleanPieces(Join("\n", numbers), numbers);
  }

  /** Text whose pieces are already clean numbers parses into those pieces. */
  lemma ParseCleanPieces(text: string, numbers: seq<string>)
    requires Split(text, IsNumberSeparator) == numbers
    requires forall i :: 0 <= i < |numbers| ==> CleanNumber(numbers[i])
    ensures ParseNumbers(text) == numbers
  {
    TrimAllClean(numbers);
    FilterAll(numbers, LongEnoughTest());
  }

  /** Clean numbers joined by newlines split back into the numbers. */
  lemma SplitLines(numbers: seq<string>)
    requires |numbers| >= 1
    requires forall i :: 0 <= i < |numbers| ==> CleanNumber(numbers[i])
    ensures Split(Join("\n", numbers), IsNumberSeparator) == numbers
  {
    SplitJoin(numbers, '\n', IsNumberSeparator);
  }

  lemma TrimAllClean(numbers: seq<string>)
    requires forall i :: 0 <= i < |numbers| ==> Trim(numbers[i]) == numbers[i]
    ensures TrimAll(numbers) == numbers
  {
  }

  /** The leads of a direct import, or `None` when the text is blank or no
      moderator or date is chosen. `newId(i)` is the id generated for the
      `i`-th lead and `now` the creation time. */
  function DirectImport(
    text: string, name: string, address: string, modId: string, date: string,
    newId: nat -> string, now: int): (r: Option<seq<Lead>>)
    ensures r.None? <==> Trim(text) == [] || modId == [] || date == []
    ensures r.Some? ==> |r.value| == |ParseNumbers(text)|
    ensures r.Some? ==> forall i :: 0 <= i < |r.value| ==>
      r.value[i] == Lead(newId(i), ParseNumbers(text)[i], Trim(name), Trim(address), modId, New, date, now)
  {
    if Trim(text) == [] || modId == [] || date == [] then None
    else
      var numbers := ParseNumbers(text);
      Some(seq(|numbers|, i requires 0 <= i < |numbers| =>
        Lead(newId(i), numbers[i], Trim(name), Trim(address), modId, New, date, now)))
  }

  /** The positions a serial-number range selects: `start - 1` up to `end - 1`. */
  function RangeIndices(start: int, end: int): (r: seq<int>)
    requires 1 <= start <= end
    ensures |r| == end - start + 1
    ensures forall i :: 0 <= i < |r| ==> r[i] == start - 1 + i
  {
    seq(end - start + 1, i requires 0 <= i < end - start + 1 => start - 1 + i)
  }

  /** The range selects exactly the positions from `start - 1` to `end - 1`,
      in ascending order, none of them negative. */
  lemma RangeIndicesSpec(start: int, end: int)
    requires 1 <= start <= end
    ensures forall x :: x in RangeIndices(start, end) <==> start - 1 <= x <= end - 1
    ensures forall i, j :: 0 <= i < j < |RangeIndices(start, end)| ==> RangeIndices(start, end)[i] < RangeIndices(start, end)[j]
    ensures forall i :: 0 <= i < |RangeIndices(start, end)| ==> RangeIndices(start, end)[i] >= 0
  {
    var r := RangeIndices(start, end);
    forall x | start - 1 <= x <= end - 1 ensures x in r {
      assert r[x - start + 1] == x;
    }
  }

  /** A range reassignment to hand to the store. */
  datatype RangeRequest = RangeRequest(indices: seq<int>, modId: string, date: string)

  /** The range form: `None` when either bound is not a number, the start is
      below 1, the end is before the start, or no moderator is chosen. The
      date is passed on unchecked. */
  function RangeSubmit(start: Option<int>, end: Option<int>, modId: string, date: string): (r: Option<RangeRequest>)
    ensures r.None? <==> start.None? || end.None? || start.value < 1 || end.value < start.value || modId == []
    ensures r.Some? ==> r.value == RangeRequest(RangeIndices(start.value, end.value), modId, date)
  {
    if start.None? || end.None? || start.value < 1 || end.value < start.value || modId == [] then None
    else Some(RangeRequest(RangeIndices(start.value, end.value), modId, date))
  }
}
