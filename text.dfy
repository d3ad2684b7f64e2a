/**
 * The two string operations the command decoder of iott.py relies on:
 * `str.split(sep)` with an explicit one-character separator and `str.strip()`
 * with no argument. Both are pure.
 */
module Text {

  /**
   * The characters MicroPython's `str.strip()` removes when given no argument:
   * space, tab, newline, carriage return, vertical tab and form feed.
   */
  predicate IsSpace(c: char) {
    c == ' ' || c == '\t' || c == '\n' || c == '\r' || c == '\U{b}' || c == '\U{c}'
  }

  predicate AllSpace(s: string) {
    forall k :: 0 <= k < |s| ==> IsSpace(s[k])
  }

  /** Neither end of `s` is whitespace: what `strip()` returns. */
  predicate Stripped(s: string) {
    s == [] || (!IsSpace(s[0]) && !IsSpace(s[|s| - 1]))
  }

  /** `s` with its leading whitespace removed (`str.lstrip()`). */
  function TrimStart(s: string): (r: string)
    ensures |r| <= |s|
    ensures r == [] || !IsSpace(r[0])
  {
    if |s| > 0 && IsSpace(s[0]) then TrimStart(s[1..]) else s
  }

  /** `lstrip()` removes only a whitespace prefix. */
  lemma {:induction false} TrimStartDrops(s: string)
    ensures TrimStart(s) == s[|s| - |TrimStart(s)|..]
    ensures AllSpace(s[..|s| - |TrimStart(s)|])
    decreases |s|
  {
    if |s| > 0 && IsSpace(s[0]) {
      var r := TrimStart(s[1..]);
      TrimStartDrops(s[1..]);
      assert s[..|s| - |r|] == [s[0]] + s[1..][..|s| - 1 - |r|];
    }
  }

  /** `s` with its trailing whitespace removed (`str.rstrip()`). */
  function TrimEnd(s: string): (r: string)
    ensures |r| <= |s|
    ensures r == [] || !IsSpace(r[|r| - 1])
  {
    if |s| > 0 && IsSpace(s[|s| - 1]) then TrimEnd(s[..|s| - 1]) else s
  }

  /** `rstrip()` removes only a whitespace suffix. */
  lemma {:induction false} TrimEndDrops(s: string)
    ensures TrimEnd(s) == s[..|TrimEnd(s)|]
    ensures AllSpace(s[|TrimEnd(s)|..])
    decreases |s|
  {
    if |s| > 0 && IsSpace(s[|s| - 1]) {
      var r := TrimEnd(s[..|s| - 1]);
      TrimEndDrops(s[..|s| - 1]);
      assert s[|r|..] == s[..|s| - 1][|r|..] + [s[|s| - 1]];
    }
  }

  /** `str.strip()`: a middle piece of `s` with no whitespace at either end. */
  function Strip(s: string): (r: string)
    ensures Stripped(r)
    ensures |r| <= |s|
  {
    var t := TrimStart(s);
    var r := TrimEnd(t);
    TrimEndDrops(t);
    assert r != [] ==> r[0] == t[0];
    r
  }

  /** Stripping only removes characters: a character absent from `s` is absent from `Strip(s)`. */
  lemma StripKeeps(s: string, c: char)
    requires c !in s
    ensures c !in Strip(s)
  {
    var t := TrimStart(s);
    TrimStartDrops(s);
    TrimEndDrops(t);
    assert c !in t;
  }

  lemma {:induction false} TrimStartPadded(lead: string, rest: string)
    requires AllSpace(lead)
    requires rest == [] || !IsSpace(rest[0])
    ensures TrimStart(lead + rest) == rest
    decreases |lead|
  {
    if lead != [] {
      assert (lead + rest)[1..] == lead[1..] + rest;
      TrimStartPadded(lead[1..], rest);
    } else {
      assert lead + rest == rest;
    }
  }

  lemma {:induction false} TrimEndPadded(core: string, trail: string)
    requires AllSpace(trail)
    requires core == [] || !IsSpace(core[|core| - 1])
    ensures TrimEnd(core + trail) == core
    decreases |trail|
  {
    if trail != [] {
      var s := core + trail;
      assert s[..|s| - 1] == core + trail[..|trail| - 1];
      TrimEndPadded(core, trail[..|trail| - 1]);
    } else {
      assert core + trail == core;
    }
  }

  /**
   * `strip()` removes exactly the whitespace padding: whatever stripped text is
   * surrounded by whitespace, stripping gives that text back.
   */
  lemma {:induction false} StripPadded(lead: string, core: string, trail: string)
    requires AllSpace(lead) && AllSpace(trail) && Stripped(core)
    ensures Strip(lead + core + trail) == core
  {
    var rest := core + trail;
    assert lead + core + trail == lead + rest;
    if core == [] {
      assert rest == trail;
      if trail == [] {
        TrimStartPadded(lead, rest);
      } else {
        assert AllSpace(lead + trail);
        assert TrimStart(lead + trail) == [] by {
          TrimStartPadded(lead + trail, []);
          assert lead + trail + [] == lead + trail;
        }
      }
      TrimEndPadded([], []);
    } else {
      assert rest[0] == core[0];
      TrimStartPadded(lead, rest);
      TrimEndPadded(core, trail);
    }
  }

  /** Stripping text that is already stripped changes nothing (so `strip` is idempotent). */
  lemma StripStripped(s: string)
    requires Stripped(s)
    ensures Strip(s) == s
  {
    StripPadded([], s, []);
    assert [] + s + [] == s;
  }

  lemma StripIdempotent(s: string)
    ensures Strip(Strip(s)) == Strip(s)
  {
    StripStripped(Strip(s));
  }

  /** The inverse of `Split`: the parts glued back together with `sep` between them. */
  function Join(parts: seq<string>, sep: char): string
    requires |parts| >= 1
    decreases |parts|
  {
    if |parts| == 1 then parts[0] else parts[0] + [sep] + Join(parts[1..], sep)
  }

  /**
   * `s.split(sep)`: the pieces of `s` between occurrences of `sep`, of which
   * there is always at least one. `SplitPiecesFree` and `SplitJoinsBack` say
   * what the pieces are.
   */
  function Split(s: string, sep: char): (parts: seq<string>)
    ensures |parts| >= 1
    decreases |s|
  {
    if |s| == 0 then [""]
    else
      var rest := Split(s[1..], sep);
      if s[0] == sep then [""] + rest
      else [[s[0]] + rest[0]] + rest[1..]
  }

  /** No piece holds the separator. */
  lemma {:induction false} SplitPiecesFree(s: string, sep: char)
    ensures forall i :: 0 <= i < |Split(s, sep)| ==> sep !in Split(s, sep)[i]
    decreases |s|
  {
    if |s| > 0 {
      SplitPiecesFree(s[1..], sep);
    }
  }

  /** Joining the pieces with the separator gives the string back. */
  lemma {:induction false} SplitJoinsBack(s: string, sep: char)
    ensures Join(Split(s, sep), sep) == s
    decreases |s|
  {
    if |s| > 0 {
      var rest := Split(s[1..], sep);
      SplitJoinsBack(s[1..], sep);
      var parts := Split(s, sep);
      if s[0] == sep {
        assert parts[1..] == rest;
      } else {
        assert parts[1..] == rest[1..];
        if |rest| > 1 {
          assert Join(rest, sep) == rest[0] + [sep] + Join(rest[1..], sep);
        }
      }
      assert s == [s[0]] + s[1..];
    }
  }

  /** A separator-free string splits into itself alone. */
  lemma {:induction false} SplitWithoutSeparator(s: string, sep: char)
    requires sep !in s
    ensures |Split(s, sep)| == 1 && Split(s, sep)[0] == s
    decreases |s|
  {
    if s != [] {
      SplitWithoutSeparator(s[1..], sep);
    }
  }

  /** Splitting at the first separator: the head piece, then the split of the rest. */
  lemma {:induction false} SplitAtFirst(head: string, sep: char, tail: string)
    requires sep !in head
    ensures Split(head + [sep] + tail, sep) == [head] + Split(tail, sep)
    decreases |head|
  {
    var s := head + [sep] + tail;
    if head == [] {
      assert s[1..] == tail;
    } else {
      assert s[1..] == head[1..] + [sep] + tail;
      SplitAtFirst(head[1..], sep, tail);
      assert [head[0]] + head[1..] == head;
    }
  }

  /** A leading separator splits off an empty first piece. */
  lemma SplitLeadingSeparator(sep: char, tail: string)
    ensures Split([sep] + tail, sep) == [""] + Split(tail, sep)
  {
    assert ([sep] + tail)[1..] == tail;
  }

  /** The first piece runs up to the first separator, or to the end. */
  lemma SplitFirstPiece(head: string, sep: char, tail: string)
    requires sep !in head
    requires tail == [] || tail[0] == sep
    ensures Split(head + tail, sep)[0] == head
  {
    if tail == [] {
      assert head + tail == head;
      SplitWithoutSeparator(head, sep);
    } else {
      assert head + tail == head + [sep] + tail[1..];
      SplitAtFirst(head, sep, tail[1..]);
    }
  }

  /** Exactly one piece iff there is no separator. */
  lemma SplitSingleIff(s: string, sep: char)
    ensures |Split(s, sep)| == 1 <==> sep !in s
  {
    if sep !in s {
      SplitWithoutSeparator(s, sep);
    } else {
      SplitJoinsBack(s, sep);
      SplitPiecesFree(s, sep);
    }
  }

  /** `Split` undoes `Join` whenever no part holds the separator. */
  lemma {:induction false} SplitJoin(parts: seq<string>, sep: char)
    requires |parts| >= 1
    requires forall i :: 0 <= i < |parts| ==> sep !in parts[i]
    ensures Split(Join(parts, sep), sep) == parts
    decreases |parts|
  {
    if |parts| == 1 {
      SplitWithoutSeparator(parts[0], sep);
      assert Split(Join(parts, sep), sep) == [parts[0]];
    } else {
      SplitJoin(parts[1..], sep);
      SplitAtFirst(parts[0], sep, Join(parts[1..], sep));
      assert [parts[0]] + parts[1..] == parts;
    }
  }
}
