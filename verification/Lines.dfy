/** Newline-separated text: the split and join that every line-based part of the repository uses. */
module Lines {

  /** `s.split("\n")`: always at least one line. */
  function Split(s: string): (lines: seq<string>)
    ensures |lines| >= 1
  {
    if s == "" then [""]
    else
      var rest := Split(s[1..]);
      if s[0] == '\n' then [""] + rest else [[s[0]] + rest[0]] + rest[1..]
  }

  /** `lines.join("\n")`. */
  function Join(lines: seq<string>): string {
    if |lines| == 0 then ""
    else if |lines| == 1 then lines[0]
    else lines[0] + "\n" + Join(lines[1..])
  }

  ghost predicate NewlineFree(lines: seq<string>) {
    forall i :: 0 <= i < |lines| ==> '\n' !in lines[i]
  }

  /** Characters in all lines together, separators not counted. */
  ghost function Width(lines: seq<string>): nat {
    if lines == [] then 0 else |lines[0]| + Width(lines[1..])
  }

  lemma {:induction false} SplitIsNewlineFree(s: string)
    ensures NewlineFree(Split(s))
  {
    if s == "" {
    } else {
      SplitIsNewlineFree(s[1..]);
    }
  }

  lemma {:induction false} JoinOfSplit(s: string)
    ensures Join(Split(s)) == s
  {
    if s == "" {
    } else {
      var rest := Split(s[1..]);
      JoinOfSplit(s[1..]);
      if s[0] == '\n' {
        assert ([""] + rest)[1..] == rest;
      } else {
        assert Split(s)[1..] == rest[1..];
      }
      assert s == [s[0]] + s[1..];
    }
  }

  /** One line in front of a text is one more line in its split. */
  lemma {:induction false} SplitOfPrepend(line: string, s: string)
    requires '\n' !in line
    ensures Split(line + "\n" + s) == [line] + Split(s)
  {
    var t := line + "\n" + s;
    if line == "" {
      assert t[1..] == s;
    } else {
      assert t[1..] == line[1..] + "\n" + s;
      SplitOfPrepend(line[1..], s);
      assert line == [line[0]] + line[1..];
    }
  }

  lemma {:induction false} SplitOfLine(line: string)
    requires '\n' !in line
    ensures Split(line) == [line]
  {
    if line == "" {
    } else {
      SplitOfLine(line[1..]);
      assert line == [line[0]] + line[1..];
    }
  }

  lemma {:induction false} SplitOfJoin(lines: seq<string>)
    requires lines != [] && NewlineFree(lines)
    ensures Split(Join(lines)) == lines
  {
    if |lines| == 1 {
      SplitOfLine(lines[0]);
    } else {
      SplitOfJoin(lines[1..]);
      SplitOfPrepend(lines[0], Join(lines[1..]));
      assert lines == [lines[0]] + lines[1..];
    }
  }

  lemma {:induction false} JoinOfAppend(lines: seq<string>, last: string)
    requires lines != []
    ensures Join(lines + [last]) == Join(lines) + "\n" + last
  {
    assert (lines + [last])[1..] == lines[1..] + [last];
    if |lines| == 1 {
    } else {
      JoinOfAppend(lines[1..], last);
    }
  }

  lemma {:induction false} JoinLength(lines: seq<string>)
    requires lines != []
    ensures |Join(lines)| == Width(lines) + |lines| - 1
  {
    if |lines| > 1 {
      JoinLength(lines[1..]);
    } else {
      assert Width(lines[1..]) == 0;
    }
  }

  lemma {:induction false} WidthOfAppend(a: seq<string>, b: seq<string>)
    ensures Width(a + b) == Width(a) + Width(b)
  {
    if a == [] {
      assert a + b == b;
    } else {
      assert (a + b)[1..] == a[1..] + b;
      WidthOfAppend(a[1..], b);
    }
  }
}
