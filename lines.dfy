/** Text helpers and the model of how a data file is written and read back.

    `Files.write(path, lines)` writes every element followed by a line
    terminator, and `Files.readAllLines(path)` splits the text at the
    terminators again.  An element holding an embedded '\n' therefore comes
    back as several lines: `ReadAllLines(Persist(L)) == Flatten(L)`. */
module Lines {
  import opened Outcomes

  predicate StartsWith(s: string, prefix: string)
  {
    |prefix| <= |s| && s[..|prefix|] == prefix
  }

  predicate NewlineFree(s: string)
  {
    '\n' !in s
  }

  predicate AllNewlineFree(lines: seq<string>)
  {
    forall i :: 0 <= i < |lines| ==> NewlineFree(lines[i])
  }

  /** The pieces of `s` between its '\n' characters (a string without any is one piece). */
  function Split(s: string): (pieces: seq<string>)
    ensures |pieces| >= 1
    ensures forall i :: 0 <= i < |pieces| ==> NewlineFree(pieces[i])
    ensures NewlineFree(s) ==> pieces == [s]
    decreases |s|
  {
    if |s| == 0 then [""]
    else
      var rest := Split(s[1..]);
      if s[0] == '\n' then [""] + rest
      else
        assert NewlineFree(s) ==> NewlineFree(s[1..]) && s == [s[0]] + s[1..];
        [[s[0]] + rest[0]] + rest[1..]
  }

  /** The pieces separated by '\n' (the inverse of Split). */
  function Join(pieces: seq<string>): string
  {
    if |pieces| == 0 then ""
    else if |pieces| == 1 then pieces[0]
    else pieces[0] + "\n" + Join(pieces[1..])
  }

  lemma {:induction false} JoinSplit(s: string)
    ensures Join(Split(s)) == s
    decreases |s|
  {
    if |s| > 0 {
      var rest := Split(s[1..]);
      JoinSplit(s[1..]);
      if s[0] == '\n' {
        assert ([""] + rest)[1..] == rest;
      } else {
        var head := [s[0]] + rest[0];
        var pieces := [head] + rest[1..];
        if |rest| > 1 {
          assert pieces[1..] == rest[1..];
          assert Join(rest) == rest[0] + "\n" + Join(rest[1..]);
          assert Join(pieces) == [s[0]] + Join(rest);
        }
        assert s == [s[0]] + s[1..];
      }
    }
  }

  /** A text starting with '\n' splits into an empty piece and the pieces of the rest. */
  lemma SplitConsNewline(t: string)
    ensures Split(['\n'] + t) == [""] + Split(t)
  {
    assert (['\n'] + t)[1..] == t;
  }

  /** Any other first character joins the first piece of the rest. */
  lemma SplitConsChar(c: char, t: string)
    requires c != '\n'
    ensures Split([c] + t) == [[c] + Split(t)[0]] + Split(t)[1..]
  {
    assert ([c] + t)[0] == c && ([c] + t)[1..] == t;
  }

  /** Putting a character in front of the first piece commutes with appending pieces. */
  lemma JoinFirstPiece(c: char, ra: seq<string>, rb: seq<string>)
    requires |ra| >= 1
    ensures [[c] + (ra + rb)[0]] + (ra + rb)[1..] == [[c] + ra[0]] + ra[1..] + rb
  {
    assert (ra + rb)[0] == ra[0];
    assert (ra + rb)[1..] == ra[1..] + rb;
  }

  /** A '\n' in the text separates the pieces on either side of it. */
  lemma {:induction false} SplitAround(a: string, b: string)
    ensures Split(a + "\n" + b) == Split(a) + Split(b)
    decreases |a|
  {
    if |a| == 0 {
      assert a + "\n" + b == ['\n'] + b;
      SplitConsNewline(b);
    } else {
      var c, t := a[0], a[1..];
      var u := t + "\n" + b;
      assert a == [c] + t;
      assert a + "\n" + b == [c] + u;
      SplitAround(t, b);
      var ra, rb := Split(t), Split(b);
      if c == '\n' {
        SplitConsNewline(u);
        SplitConsNewline(t);
        assert [""] + (ra + rb) == [""] + ra + rb;
      } else {
        SplitConsChar(c, u);
        SplitConsChar(c, t);
        JoinFirstPiece(c, ra, rb);
      }
    }
  }

  /** Every element replaced by its '\n'-separated pieces. */
  function Flatten(lines: seq<string>): (r: seq<string>)
    ensures AllNewlineFree(r)
    ensures AllNewlineFree(lines) ==> r == lines
  {
    if |lines| == 0 then []
    else
      var tail := Flatten(lines[1..]);
      assert AllNewlineFree(lines) ==> AllNewlineFree(lines[1..]);
      Split(lines[0]) + tail
  }

  lemma {:induction false} FlattenAppend(a: seq<string>, b: seq<string>)
    ensures Flatten(a + b) == Flatten(a) + Flatten(b)
  {
    if |a| > 0 {
      assert (a + b)[1..] == a[1..] + b;
      FlattenAppend(a[1..], b);
    } else {
      assert a + b == b;
    }
  }

  /** Flattening a list whose elements are newline-free except the one at `i`. */
  lemma FlattenReplace(lines: seq<string>, i: nat, text: string)
    requires i < |lines| && AllNewlineFree(lines)
    ensures Flatten(lines[i := text]) == lines[..i] + Split(text) + lines[i + 1..]
  {
    var replaced := lines[i := text];
    assert replaced == lines[..i] + [text] + lines[i + 1..];
    FlattenAppend(lines[..i] + [text], lines[i + 1..]);
    FlattenAppend(lines[..i], [text]);
    assert AllNewlineFree(lines[..i]);
    assert AllNewlineFree(lines[i + 1..]);
  }

  /** The text `Files.write` produces: every element followed by a terminator. */
  function Persist(lines: seq<string>): string
  {
    if |lines| == 0 then "" else lines[0] + "\n" + Persist(lines[1..])
  }

  /** `Files.readAllLines`: the lines of the text, a final terminator ending the last line. */
  function ReadAllLines(text: string): seq<string>
  {
    if |text| == 0 then []
    else if text[|text| - 1] == '\n' then Split(text[..|text| - 1])
    else Split(text)
  }

  lemma {:induction false} PersistJoin(lines: seq<string>)
    requires |lines| >= 1
    ensures Persist(lines) == Join(lines) + "\n"
    ensures Split(Join(lines)) == Flatten(lines)
  {
    if |lines| > 1 {
      PersistJoin(lines[1..]);
      SplitAround(lines[0], Join(lines[1..]));
    }
  }

  /** Writing a list of elements and reading the file back yields the flattened list. */
  lemma WriteThenRead(lines: seq<string>)
    ensures ReadAllLines(Persist(lines)) == Flatten(lines)
  {
    if |lines| > 0 {
      PersistJoin(lines);
      var text := Persist(lines);
      assert text[..|text| - 1] == Join(lines);
    }
  }

  /** ASCII lower case, the part of `Character.toLowerCase` modelled here. */
  function Lower(c: char): char
  {
    if 'A' <= c <= 'Z' then (c as int + 32) as char else c
  }

  /** `String.equalsIgnoreCase` on ASCII letters. */
  predicate EqualsIgnoreCase(a: string, b: string)
  {
    |a| == |b| && forall i :: 0 <= i < |a| ==> Lower(a[i]) == Lower(b[i])
  }

  /** The first position of `x` in `s`, if any. */
  function FirstIndex<T(==)>(s: seq<T>, x: T): (r: Option<nat>)
    ensures r.None? <==> x !in s
    ensures r.Some? ==> r.value < |s| && s[r.value] == x && forall j :: 0 <= j < r.value ==> s[j] != x
  {
    if |s| == 0 then None
    else if s[0] == x then Some(0)
    else match FirstIndex(s[1..], x)
      case None => None
      case Some(i) => Some(i + 1)
  }
}
