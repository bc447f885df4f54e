/** The list combinators the game is written with (`not`, `filter`, `map`) and the
    line/field splitting that turns the chart text into notes. */
module Util {
  import opened GameTypes

  /** Composable negation of a predicate. */
  function Not<T(!new)>(f: T -> bool): (g: T -> bool)
    ensures forall x :: g(x) == !f(x)
  {
    x => !f(x)
  }

  /** The elements of `xs` that satisfy `p`, in their original order. */
  function Filter<T(!new)>(p: T -> bool, xs: seq<T>): (r: seq<T>)
    ensures |r| <= |xs|
    ensures forall x :: x in r <==> x in xs && p(x)
    decreases |xs|
  {
    if xs == [] then []
    else (if p(xs[0]) then [xs[0]] else []) + Filter(p, xs[1..])
  }

  /** `f` applied to every element of `xs`, position by position. */
  function MapSeq<A, B>(f: A -> B, xs: seq<A>): (r: seq<B>)
    ensures |r| == |xs|
    ensures forall i :: 0 <= i < |xs| ==> r[i] == f(xs[i])
  {
    seq(|xs|, i requires 0 <= i < |xs| => f(xs[i]))
  }

  /** Filtering by `p` and by its negation splits `xs` with nothing lost or duplicated. */
  lemma {:induction false} FilterPartition<T(!new)>(p: T -> bool, xs: seq<T>)
    ensures multiset(Filter(p, xs)) + multiset(Filter(Not(p), xs)) == multiset(xs)
    ensures |Filter(p, xs)| + |Filter(Not(p), xs)| == |xs|
    decreases |xs|
  {
    if xs != [] {
      FilterPartition(p, xs[1..]);
      assert xs == [xs[0]] + xs[1..];
    }
  }

  /** Nothing passes a filter that no element satisfies. */
  lemma {:induction false} FilterNone<T(!new)>(p: T -> bool, xs: seq<T>)
    requires forall x :: x in xs ==> !p(x)
    ensures Filter(p, xs) == []
    decreases |xs|
  {
    if xs != [] {
      FilterNone(p, xs[1..]);
    }
  }

  /** Filtering distributes over concatenation. */
  lemma {:induction false} FilterAppend<T(!new)>(p: T -> bool, a: seq<T>, b: seq<T>)
    ensures Filter(p, a + b) == Filter(p, a) + Filter(p, b)
    decreases |a|
  {
    if a != [] {
      FilterAppend(p, a[1..], b);
      assert (a + b)[1..] == a[1..] + b;
    } else {
      assert a + b == b;
    }
  }

  /** Filtering by two predicates that exclude each other and together cover `xs`
      also splits it exactly. */
  lemma {:induction false} FilterSplit<T(!new)>(p: T -> bool, q: T -> bool, xs: seq<T>)
    requires forall x :: x in xs ==> p(x) != q(x)
    ensures multiset(Filter(p, xs)) + multiset(Filter(q, xs)) == multiset(xs)
    ensures |Filter(p, xs)| + |Filter(q, xs)| == |xs|
    decreases |xs|
  {
    if xs != [] {
      FilterSplit(p, q, xs[1..]);
      assert xs == [xs[0]] + xs[1..];
    }
  }

  // ---------------------------------------------------------------------------------------
  // Splitting text at a separator character, as `String.prototype.split` does.

  /** The pieces of `s` between occurrences of `sep`; there is always at least one piece. */
  function Split(s: string, sep: char): (r: seq<string>)
    ensures |r| >= 1
    ensures forall piece :: piece in r ==> sep !in piece
    decreases |s|
  {
    if s == [] then [""]
    else
      var rest := Split(s[1..], sep);
      if s[0] == sep then [""] + rest
      else [[s[0]] + rest[0]] + rest[1..]
  }

  /** The pieces glued back together with `sep` between consecutive pieces. */
  function Join(pieces: seq<string>, sep: char): string
    requires |pieces| >= 1
    decreases |pieces|
  {
    if |pieces| == 1 then pieces[0]
    else pieces[0] + [sep] + Join(pieces[1..], sep)
  }

  /** Splitting loses nothing: joining the pieces gives back the text. */
  lemma {:induction false} JoinSplit(s: string, sep: char)
    ensures Join(Split(s, sep), sep) == s
    decreases |s|
  {
    if s != [] {
      JoinSplit(s[1..], sep);
      var rest := Split(s[1..], sep);
      if s[0] != sep {
        if |rest| == 1 {
          assert Split(s, sep) == [[s[0]] + rest[0]];
        } else {
          assert Split(s, sep)[1..] == rest[1..];
          assert Join(rest, sep) == rest[0] + [sep] + Join(rest[1..], sep);
        }
      } else {
        assert Split(s, sep)[1..] == rest;
      }
    }
  }

  /** Splitting text that starts with a separator-free prefix `p` glues `p` onto the first piece. */
  lemma {:induction false} SplitPrefix(p: string, t: string, sep: char)
    requires sep !in p
    ensures Split(p + t, sep) == [p + Split(t, sep)[0]] + Split(t, sep)[1..]
    decreases |p|
  {
    if p != [] {
      SplitPrefix(p[1..], t, sep);
      assert (p + t)[1..] == p[1..] + t;
      assert [p[0]] + (p[1..] + Split(t, sep)[0]) == p + Split(t, sep)[0];
    } else {
      var r := Split(t, sep);
      assert p + t == t;
      assert p + r[0] == r[0];
      assert r == [r[0]] + r[1..];
    }
  }

  /** Splitting is the inverse of joining separator-free pieces. */
  lemma {:induction false} SplitJoin(pieces: seq<string>, sep: char)
    requires |pieces| >= 1
    requires forall piece :: piece in pieces ==> sep !in piece
    ensures Split(Join(pieces, sep), sep) == pieces
    decreases |pieces|
  {
    if |pieces| == 1 {
      SplitPrefix(pieces[0], "", sep);
      assert Split("", sep) == [""];
      assert pieces[0] + "" == pieces[0];
    } else {
      var tail := Join(pieces[1..], sep);
      SplitJoin(pieces[1..], sep);
      assert ([sep] + tail)[1..] == tail;
      var rest := Split([sep] + tail, sep);
      assert rest == [""] + pieces[1..];
      SplitPrefix(pieces[0], [sep] + tail, sep);
      assert Join(pieces, sep) == pieces[0] + ([sep] + tail);
      assert pieces[0] + rest[0] == pieces[0];
      assert rest[1..] == pieces[1..];
      assert pieces == [pieces[0]] + pieces[1..];
    }
  }

  /** Text holding the separator splits into at least two pieces, and text without it
      into itself alone. */
  lemma {:induction false} SplitPieces(s: string, sep: char)
    ensures sep in s <==> |Split(s, sep)| >= 2
    ensures sep !in s ==> Split(s, sep) == [s]
    decreases |s|
  {
    if s != [] {
      SplitPieces(s[1..], sep);
      assert s == [s[0]] + s[1..];
      if s[0] != sep && sep !in s[1..] {
        assert Split(s, sep) == [[s[0]] + s[1..]];
      }
    }
  }

  // ---------------------------------------------------------------------------------------
  // Chart parsing.

  /** Stand-in for JavaScript's `Number()` conversion of a field (None: the field is
      missing). The pitch conversion yields a MIDI note number. */
  datatype NumberParser = NumberParser(toReal: Option<string> -> real, toPitch: Option<string> -> nat)

  /** Field `i` of a row, if the row has that many fields. */
  function Field(fields: seq<string>, i: nat): (f: Option<string>)
    ensures f.Some? <==> i < |fields|
    ensures f.Some? ==> f.value == fields[i]
  {
    if i < |fields| then Some(fields[i]) else None
  }

  /** One chart row: played-flag, instrument, velocity (0..127), pitch, start, end;
      any further fields are ignored. */
  function ParseLine(line: string, num: NumberParser): (n: Note)
    ensures 0.0 <= num.toReal(Field(Split(line, ','), 2)) <= 127.0 ==> 0.0 <= n.velocity <= 1.0
  {
    var fields := Split(line, ',');
    Note(
      userPlayed := fields[0] == "True",
      instrumentName := Field(fields, 1),
      velocity := num.toReal(Field(fields, 2)) / 127.0,
      pitch := num.toPitch(Field(fields, 3)),
      start := num.toReal(Field(fields, 4)),
      end := num.toReal(Field(fields, 5)))
  }

  /** A row built from comma-free fields parses positionally: the first field is compared
      with "True", the second is the instrument verbatim, and fields past the sixth are ignored. */
  lemma ParseLineFields(fields: seq<string>, num: NumberParser)
    requires |fields| >= 6
    requires forall f :: f in fields ==> ',' !in f
    ensures ParseLine(Join(fields, ','), num) ==
      Note(fields[0] == "True", Some(fields[1]), num.toReal(Some(fields[2])) / 127.0,
           num.toPitch(Some(fields[3])), num.toReal(Some(fields[4])), num.toReal(Some(fields[5])))
  {
    SplitJoin(fields, ',');
  }

  /** A row with no comma, the empty row after a final newline among them, has no
      instrument field; every row with a comma has one (possibly empty). */
  lemma ParseLineMissingInstrument(line: string, num: NumberParser)
    ensures ParseLine(line, num).instrumentName.None? <==> ',' !in line
    ensures ',' !in line ==> (ParseLine(line, num).userPlayed <==> line == "True")
  {
    SplitPieces(line, ',');
  }

  /** The notes of a chart: the first line is a header, every later line is one note. */
  function ParseCSV(contents: string, num: NumberParser): (notes: seq<Note>)
    ensures |notes| == |Split(contents, '\n')| - 1
  {
    var lines := Split(contents, '\n')[1..];
    seq(|lines|, i requires 0 <= i < |lines| => ParseLine(lines[i], num))
  }

  /** A chart written as a header followed by lines yields one note per line, in order. */
  lemma ParseCSVLines(header: string, lines: seq<string>, num: NumberParser)
    requires '\n' !in header
    requires forall line :: line in lines ==> '\n' !in line
    ensures |ParseCSV(Join([header] + lines, '\n'), num)| == |lines|
    ensures forall i :: 0 <= i < |lines| ==>
      ParseCSV(Join([header] + lines, '\n'), num)[i] == ParseLine(lines[i], num)
  {
    SplitJoin([header] + lines, '\n');
    assert ([header] + lines)[1..] == lines;
  }
}
