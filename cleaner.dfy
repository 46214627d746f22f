/** The line transformation of data_cleaner.py's clean(): the header line is
    dropped, every other line is right-stripped, split on commas, its second
    field kept with every '$' removed and a newline added, and the resulting
    lines are reversed in place. Directory listing and file reads and writes
    are left to the caller: the lines of one file come in, the output name
    and lines go out. */
module DataCleaner {
  import opened Py

  /** The characters Python's str.isspace accepts, which a bare rstrip()
      removes. */
  predicate IsSpace(c: char)
  {
    c == ' ' || c == '\t' || c == '\n' || c == '\r' || c == '\U{B}' || c == '\U{C}'
    || ('\U{1C}' <= c <= '\U{1F}') || c == '\U{85}' || c == '\U{A0}' || c == '\U{1680}'
    || ('\U{2000}' <= c <= '\U{200A}') || c == '\U{2028}' || c == '\U{2029}' || c == '\U{202F}'
    || c == '\U{205F}' || c == '\U{3000}'
  }

  /** str.rstrip(): the longest prefix that does not end in whitespace. */
  function RStrip(s: string): (r: string)
    ensures r <= s
    ensures r == [] || !IsSpace(r[|r| - 1])
    ensures forall i :: |r| <= i < |s| ==> IsSpace(s[i])
  {
    if s != [] && IsSpace(s[|s| - 1]) then RStrip(s[..|s| - 1]) else s
  }

  function Count(s: string, c: char): nat
  {
    if s == [] then 0 else (if s[0] == c then 1 else 0) + Count(s[1..], c)
  }

  /** str.split(sep) for a one-character separator: the pieces between
      separators, always at least one. */
  function Split(s: string, sep: char): (r: seq<string>)
    ensures |r| >= 1
    ensures forall k :: 0 <= k < |r| ==> sep !in r[k]
  {
    if s == [] then [[]]
    else
      var rest := Split(s[1..], sep);
      if s[0] == sep then [[]] + rest else [[s[0]] + rest[0]] + rest[1..]
  }

  /** sep.join(fields), the inverse of Split. */
  function Join(fields: seq<string>, sep: char): string
    requires |fields| >= 1
  {
    if |fields| == 1 then fields[0] else fields[0] + [sep] + Join(fields[1..], sep)
  }

  /** Splitting then joining gives the line back. */
  lemma {:induction false} JoinSplit(s: string, sep: char)
    ensures Join(Split(s, sep), sep) == s
  {
    if s != [] {
      var rest := Split(s[1..], sep);
      JoinSplit(s[1..], sep);
      if s[0] == sep {
        assert ([[]] + rest)[1..] == rest;
      } else {
        var r := [[s[0]] + rest[0]] + rest[1..];
        if |rest| == 1 {
          assert r == [[s[0]] + rest[0]];
        } else {
          assert r[1..] == rest[1..];
          assert Join(rest, sep) == rest[0] + [sep] + Join(rest[1..], sep);
        }
      }
    }
  }

  /** Splitting yields one field more than there are separators. */
  lemma {:induction false} SplitCount(s: string, sep: char)
    ensures |Split(s, sep)| == Count(s, sep) + 1
  {
    if s != [] {
      SplitCount(s[1..], sep);
    }
  }

  lemma {:induction false} CountIn(s: string, c: char)
    ensures Count(s, c) > 0 <==> c in s
  {
    if s != [] {
      CountIn(s[1..], c);
      assert s == [s[0]] + s[1..];
    }
  }

  /** str.replace(c, ''): drop every occurrence of c. */
  function Remove(s: string, c: char): (r: string)
    ensures c !in r
    ensures |r| == |s| - Count(s, c)
  {
    if s == [] then [] else (if s[0] == c then [] else [s[0]]) + Remove(s[1..], c)
  }

  /** Removing works character by character: a character other than c stays,
      c goes, and the pieces of a string keep their order. */
  lemma {:induction false} RemoveConcat(s: string, t: string, c: char)
    ensures Remove(s + t, c) == Remove(s, c) + Remove(t, c)
  {
    if s != [] {
      assert (s + t)[1..] == s[1..] + t;
      RemoveConcat(s[1..], t, c);
    } else {
      assert s + t == t;
    }
  }

  lemma RemoveOne(x: char, c: char)
    ensures Remove([x], c) == if x == c then [] else [x]
  {
    assert [x][1..] == [];
  }

  /** Removing leaves a line without the character as it is, so removing
      twice is removing once. */
  lemma {:induction false} RemoveAbsent(s: string, c: char)
    requires c !in s
    ensures Remove(s, c) == s
  {
    if s != [] {
      assert c !in s[1..];
      RemoveAbsent(s[1..], c);
    }
  }

  lemma RemoveIdempotent(s: string, c: char)
    ensures Remove(Remove(s, c), c) == Remove(s, c)
  {
    RemoveAbsent(Remove(s, c), c);
  }

  /** One output line, or the IndexError of a line without a comma. */
  function CleanLine(line: string): (r: Result<string>)
    ensures r.Err? ==> r.error == IndexError
  {
    match Get(Split(RStrip(line), ','), 1)
    case Err(e) => Err(e)
    case Ok(field) => Ok(Remove(field, '$') + "\n")
  }

  /** A line fails exactly when its stripped text has no comma; otherwise the
      output is the second field without '$', plus one newline. */
  lemma LineContent(line: string)
    ensures CleanLine(line).Err? <==> ',' !in RStrip(line)
    ensures CleanLine(line).Ok? ==>
              CleanLine(line).value == Remove(Split(RStrip(line), ',')[1], '$') + "\n"
    ensures CleanLine(line).Ok? ==> '$' !in CleanLine(line).value
  {
    var s := RStrip(line);
    SplitCount(s, ',');
    CountIn(s, ',');
  }

  /** A list comprehension whose element expression may raise: f applied
      to each line in order, the first failure being the error. */
  function MapAll(lines: seq<string>, f: string -> Result<string>): (r: Result<seq<string>>)
    ensures r.Ok? ==> |r.value| == |lines|
  {
    if lines == [] then Ok([])
    else
      match MapAll(lines[..|lines| - 1], f)
      case Err(e) => Err(e)
      case Ok(out) =>
        match f(lines[|lines| - 1])
        case Err(e) => Err(e)
        case Ok(l) => Ok(out + [l])
  }

  /** The comprehension succeeds exactly when every element does, and then
      keeps them in order; otherwise it raises what some element raised. */
  lemma {:induction false} MapAllLines(lines: seq<string>, f: string -> Result<string>)
    ensures MapAll(lines, f).Ok? <==> forall i :: 0 <= i < |lines| ==> f(lines[i]).Ok?
    ensures MapAll(lines, f).Ok? ==> forall i :: 0 <= i < |lines| ==> MapAll(lines, f).value[i] == f(lines[i]).value
    ensures MapAll(lines, f).Err? ==> exists i :: 0 <= i < |lines| && f(lines[i]) == Err(MapAll(lines, f).error)
  {
    if lines != [] {
      var init, last := lines[..|lines| - 1], lines[|lines| - 1];
      MapAllLines(init, f);
      assert forall i :: 0 <= i < |init| ==> init[i] == lines[i];
      if MapAll(lines, f).Ok? {
        var out := MapAll(lines, f).value;
        assert out == MapAll(init, f).value + [f(last).value];
        forall i | 0 <= i < |lines|
          ensures out[i] == f(lines[i]).value
        {
          if i < |init| {
            assert out[i] == MapAll(init, f).value[i];
          }
        }
      } else if MapAll(init, f).Err? {
        var i :| 0 <= i < |init| && f(init[i]) == Err(MapAll(init, f).error);
        assert lines[i] == init[i];
      } else {
        assert f(lines[|lines| - 1]) == Err(MapAll(lines, f).error);
      }
    }
  }

  /** The list comprehension over every line but the first; the first line
      that fails raises. */
  function CleanAll(lines: seq<string>): (r: Result<seq<string>>)
    ensures r.Ok? ==> |r.value| == |lines|
    ensures r.Err? ==> r.error == IndexError
  {
    MapAllLines(lines, CleanLine);
    MapAll(lines, CleanLine)
  }

  /** The comprehension succeeds exactly when every line does, and then
      keeps them in order. */
  lemma CleanAllLines(lines: seq<string>)
    ensures CleanAll(lines).Ok? <==> forall i :: 0 <= i < |lines| ==> CleanLine(lines[i]).Ok?
    ensures CleanAll(lines).Ok? ==> forall i :: 0 <= i < |lines| ==> CleanAll(lines).value[i] == CleanLine(lines[i]).value
  {
    MapAllLines(lines, CleanLine);
  }

  function Reversed<T>(s: seq<T>): (r: seq<T>)
    ensures |r| == |s|
    ensures forall i :: 0 <= i < |s| ==> r[i] == s[|s| - 1 - i]
  {
    if s == [] then [] else [s[|s| - 1]] + Reversed(s[..|s| - 1])
  }

  lemma {:induction false} ReversedTwice<T>(s: seq<T>)
    ensures Reversed(Reversed(s)) == s
  {
  }

  /** list.reverse(): swap from both ends towards the middle. */
  method Reverse<T>(a: array<T>)
    modifies a
    ensures a[..] == Reversed(old(a[..]))
  {
    var i, j := 0, a.Length - 1;
    while i < j
      invariant 0 <= i <= a.Length && j == a.Length - 1 - i
      invariant i <= j + 1
      invariant forall k :: 0 <= k < i ==> a[k] == old(a[a.Length - 1 - k])
      invariant forall k :: j < k < a.Length ==> a[k] == old(a[a.Length - 1 - k])
      invariant forall k :: i <= k <= j ==> a[k] == old(a[k])
    {
      a[i], a[j] := a[j], a[i];
      i, j := i + 1, j - 1;
    }
  }

  /** The output file name, file[:-4]. */
  function OutputName(file: string): (r: string)
    ensures |file| >= 4 ==> r == file[..|file| - 4]
    ensures |file| < 4 ==> r == []
  {
    Slice(file, 0, -4)
  }

  /** What clean() writes for one file: its name and its lines. */
  function CleanSpec(file: string, lines: seq<string>): Result<(string, seq<string>)>
  {
    match CleanAll(Slice(lines, 1, |lines|))
    case Err(e) => Err(e)
    case Ok(past) => Ok((OutputName(file), Reversed(past)))
  }

  /** clean() on one file: the comprehension, then the in-place reversal. */
  method CleanFile(file: string, lines: seq<string>) returns (r: Result<(string, seq<string>)>)
    ensures r == CleanSpec(file, lines)
  {
    var past := CleanAll(Slice(lines, 1, |lines|));
    if past.Err? {
      return Err(past.error);
    }
    var buffer := new string[|past.value|](i requires 0 <= i < |past.value| => past.value[i]);
    assert buffer[..] == past.value;
    Reverse(buffer);
    return Ok((OutputName(file), buffer[..]));
  }

  /** Reversing what the comprehension makes of every line but the first
      lists the results newest first: entry i comes from line n - 1 - i. */
  lemma MapReversed(lines: seq<string>, f: string -> Result<string>)
    requires forall i :: 1 <= i < |lines| ==> f(lines[i]).Ok?
    ensures MapAll(Slice(lines, 1, |lines|), f).Ok?
    ensures |MapAll(Slice(lines, 1, |lines|), f).value| == if lines == [] then 0 else |lines| - 1
    ensures forall i :: 0 <= i < |MapAll(Slice(lines, 1, |lines|), f).value| ==>
              Reversed(MapAll(Slice(lines, 1, |lines|), f).value)[i] == f(lines[|lines| - 1 - i]).value
  {
    if lines == [] {
      assert Slice(lines, 1, 0) == [];
    } else {
      var data := Slice(lines, 1, |lines|);
      assert data == lines[1..];
      MapAllLines(data, f);
    }
  }

  /** A file whose data lines all clean yields one line fewer than it has
      (none for an empty file), the newest first: output line i comes from
      input line n - 1 - i. */
  lemma CleanShape(file: string, lines: seq<string>)
    requires forall i :: 1 <= i < |lines| ==> CleanLine(lines[i]).Ok?
    ensures CleanSpec(file, lines).Ok?
    ensures |CleanSpec(file, lines).value.1| == if lines == [] then 0 else |lines| - 1
    ensures forall i :: 0 <= i < |CleanSpec(file, lines).value.1| ==>
              CleanSpec(file, lines).value.1[i] == CleanLine(lines[|lines| - 1 - i]).value
  {
    MapReversed(lines, CleanLine);
  }

  /** A data line without a comma makes the whole file fail with
      IndexError; the header line is never looked at. */
  lemma CleanFails(file: string, lines: seq<string>, i: nat)
    requires 1 <= i < |lines| && ',' !in RStrip(lines[i])
    ensures CleanSpec(file, lines) == Err(IndexError)
  {
    var data := Slice(lines, 1, |lines|);
    assert data[i - 1] == lines[i];
    LineContent(lines[i]);
    CleanAllLines(data);
  }

  /** The first line is dropped unread: whatever it holds, the output is the same. */
  lemma HeaderIgnored(file: string, header: string, header2: string, rest: seq<string>)
    ensures CleanSpec(file, [header] + rest) == CleanSpec(file, [header2] + rest)
  {
    assert Slice([header] + rest, 1, |rest| + 1) == rest;
    assert Slice([header2] + rest, 1, |rest| + 1) == rest;
  }
}
