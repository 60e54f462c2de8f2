/**
 * How the buffer's lines become file text and back: saving joins the lines
 * with line feeds, loading splits the text as Rust's `str::lines` does.
 */
module Text {
  /** The text written for a buffer: its lines joined with a line feed between each two. */
  function Join(lines: seq<string>): string
  {
    if |lines| == 0 then ""
    else if |lines| == 1 then lines[0]
    else lines[0] + "\n" + Join(lines[1..])
  }

  /**
   * The shape of joined text: empty for no lines; otherwise it starts with the
   * first line, followed by a line feed when more lines come, and ends with
   * the last line.
   */
  lemma JoinLayout(lines: seq<string>)
    ensures var text := Join(lines);
      (lines == [] ==> text == "") &&
      (lines != [] ==> |lines[0]| <= |text| && text[..|lines[0]|] == lines[0]) &&
      (|lines| >= 2 ==> |lines[0]| < |text| && text[|lines[0]|] == '\n') &&
      (lines != [] ==> |lines[|lines| - 1]| <= |text| &&
                       text[|text| - |lines[|lines| - 1]|..] == lines[|lines| - 1])
  {
    if |lines| >= 2 {
      var text := Join(lines);
      assert text == lines[0] + "\n" + Join(lines[1..]);
      assert text[..|lines[0]|] == lines[0];
    }
    if lines != [] {
      JoinEndsWithLastLine(lines);
    }
  }

  lemma {:induction false} JoinEndsWithLastLine(lines: seq<string>)
    requires lines != []
    ensures var last := lines[|lines| - 1];
      |last| <= |Join(lines)| && Join(lines)[|Join(lines)| - |last|..] == last
    decreases |lines|
  {
    if |lines| >= 2 {
      var tail := lines[1..];
      JoinEndsWithLastLine(tail);
      var text, rest, last := Join(lines), Join(tail), lines[|lines| - 1];
      assert tail[|tail| - 1] == last;
      assert text == lines[0] + "\n" + rest;
      assert text[|text| - |last|..] == rest[|rest| - |last|..];
    }
  }

  /** Index of the first line feed in s, or |s| when s holds none. */
  function LineEnd(s: string): (n: nat)
    ensures n <= |s|
    ensures n < |s| ==> s[n] == '\n'
    ensures forall j :: 0 <= j < n ==> s[j] != '\n'
  {
    if s == [] || s[0] == '\n' then 0 else 1 + LineEnd(s[1..])
  }

  /** A line with one final carriage return removed, if it has one. */
  function StripCR(line: string): (r: string)
    ensures r == line || (line != [] && line[|line| - 1] == '\r' && r == line[..|line| - 1])
    ensures forall c :: c in r ==> c in line
  {
    if |line| > 0 && line[|line| - 1] == '\r' then line[..|line| - 1] else line
  }

  /**
   * The lines of a text, as `str::lines` yields them: the text is cut after
   * every line feed, each piece loses that line feed and then one carriage
   * return before it, and a final piece is produced only if it is non-empty.
   */
  function Lines(s: string): (r: seq<string>)
    ensures forall i :: 0 <= i < |r| ==> '\n' !in r[i]
    ensures r == [] <==> s == []
    decreases |s|
  {
    if s == [] then []
    else
      var n := LineEnd(s);
      if n == |s| then [s]
      else [StripCR(s[..n])] + Lines(s[n + 1..])
  }

  /**
   * What a buffer becomes when it is joined, written and read back, stated
   * without reference to Join or Lines: a final empty line disappears, and
   * every line that was not the last loses one carriage return at its end.
   */
  function Reloaded(lines: seq<string>): seq<string>
  {
    var kept := if |lines| > 0 && lines[|lines| - 1] == "" then lines[..|lines| - 1] else lines;
    seq(|kept|, i requires 0 <= i < |kept| => if i < |lines| - 1 then StripCR(kept[i]) else kept[i])
  }

  /** A text without its final line feed, if it ends with one. */
  function WithoutFinalNewline(s: string): string
  {
    if |s| > 0 && s[|s| - 1] == '\n' then s[..|s| - 1] else s
  }

  predicate NoLineFeeds(lines: seq<string>)
  {
    forall i :: 0 <= i < |lines| ==> '\n' !in lines[i]
  }

  lemma LineEndAt(a: string, b: string)
    requires '\n' !in a
    ensures LineEnd(a + "\n" + b) == |a|
  {
    var s := a + "\n" + b;
    assert s[|a|] == '\n';
    assert forall j :: 0 <= j < |a| ==> s[j] == a[j];
  }

  lemma ReloadedCons(lines: seq<string>)
    requires |lines| >= 2
    ensures Reloaded(lines) == [StripCR(lines[0])] + Reloaded(lines[1..])
  {
    var tail := lines[1..];
    assert tail[|tail| - 1] == lines[|lines| - 1];
    var r, t := Reloaded(lines), Reloaded(tail);
    assert |r| == |t| + 1;
    forall i | 0 <= i < |r|
      ensures r[i] == ([StripCR(lines[0])] + t)[i]
    {
      if i > 0 {
        assert r[i] == t[i - 1];
      }
    }
  }

  /** Joining lines free of line feeds and splitting the text again yields Reloaded(lines). */
  lemma {:induction false} LinesOfJoin(lines: seq<string>)
    requires NoLineFeeds(lines)
    ensures Lines(Join(lines)) == Reloaded(lines)
    decreases |lines|
  {
    if |lines| == 1 {
      var s := lines[0];
      assert forall j :: 0 <= j < |s| ==> s[j] != '\n';
    } else if |lines| >= 2 {
      var head, rest := lines[0], Join(lines[1..]);
      var s := head + "\n" + rest;
      assert Join(lines) == s;
      LineEndAt(head, rest);
      assert s[..|head|] == head;
      assert s[|head| + 1..] == rest;
      assert Lines(s) == [StripCR(head)] + Lines(rest);
      assert NoLineFeeds(lines[1..]) by {
        forall i | 0 <= i < |lines| - 1 ensures '\n' !in lines[1..][i] {
          assert lines[1..][i] == lines[i + 1];
        }
      }
      LinesOfJoin(lines[1..]);
      ReloadedCons(lines);
    }
  }

  /**
   * A buffer survives a save and reload unchanged when no line holds a line
   * feed, no line but the last ends with a carriage return, and the last line
   * is not empty.
   */
  lemma ReloadKeepsCleanBuffer(lines: seq<string>)
    requires NoLineFeeds(lines)
    requires forall i :: 0 <= i < |lines| - 1 ==> StripCR(lines[i]) == lines[i]
    requires lines == [] || lines[|lines| - 1] != ""
    ensures Lines(Join(lines)) == lines
  {
    LinesOfJoin(lines);
  }

  /** A final empty line does not survive a save and reload: the buffer gets one line shorter. */
  lemma ReloadDropsFinalEmptyLine(lines: seq<string>)
    requires NoLineFeeds(lines)
    requires lines != [] && lines[|lines| - 1] == ""
    ensures |Lines(Join(lines))| == |lines| - 1
  {
    LinesOfJoin(lines);
  }

  /** The example the loss shows on: ["a", ""] is written as "a\n" and read back as ["a"]. */
  lemma ReloadExample()
    ensures Join(["a", ""]) == "a\n"
    ensures Lines(Join(["a", ""])) == ["a"]
  {
    assert ["a", ""][1..] == [""];
    assert Join(["a", ""]) == "a" + "\n" + "";
    LinesOfTerminatedLine("a");
    assert Join(["a", ""]) == "a" + "\n";
    assert StripCR("a") == "a";
  }

  lemma LinesOfTerminatedLine(a: string)
    requires '\n' !in a
    ensures Lines(a + "\n") == [StripCR(a)]
  {
    var s := a + "\n";
    LineEndAt(a, "");
    assert s[..|a|] == a;
    assert s[|a| + 1..] == "";
  }

  lemma NoCarriageReturnIn(s: string, i: nat, j: nat)
    requires '\r' !in s && i <= j <= |s|
    ensures '\r' !in s[i..j]
  {
    forall k | 0 <= k < j - i ensures s[i..j][k] != '\r' {
      assert s[i..j][k] == s[i + k];
      assert s[i + k] in s;
    }
  }

  lemma JoinCons(line: string, rest: seq<string>)
    requires rest != []
    ensures Join([line] + rest) == line + "\n" + Join(rest)
  {
    assert ([line] + rest)[1..] == rest;
  }

  lemma WithoutFinalNewlineConcat(head: string, rest: string)
    requires rest != []
    ensures WithoutFinalNewline(head + "\n" + rest) == head + "\n" + WithoutFinalNewline(rest)
  {
    var s := head + "\n" + rest;
    assert s[|s| - 1] == rest[|rest| - 1];
    if rest[|rest| - 1] == '\n' {
      assert s[..|s| - 1] == head + "\n" + rest[..|rest| - 1];
    }
  }

  /**
   * In the other direction, a text free of carriage returns comes back from
   * splitting and joining intact except for one final line feed.
   */
  lemma {:induction false} JoinOfLines(s: string)
    requires '\r' !in s
    ensures Join(Lines(s)) == WithoutFinalNewline(s)
    decreases |s|
  {
    if s != [] {
      var n := LineEnd(s);
      if n == |s| {
        assert s[|s| - 1] != '\n';
      } else {
        var head, rest := s[..n], s[n + 1..];
        assert s == head + "\n" + rest;
        NoCarriageReturnIn(s, 0, n);
        NoCarriageReturnIn(s, n + 1, |s|);
        assert StripCR(head) == head by {
          if |head| > 0 {
            assert head[|head| - 1] in head;
          }
        }
        assert Lines(s) == [head] + Lines(rest);
        JoinOfLines(rest);
        if rest != [] {
          JoinCons(head, Lines(rest));
          WithoutFinalNewlineConcat(head, rest);
        } else {
          assert WithoutFinalNewline(s) == head;
        }
      }
    }
  }
}
