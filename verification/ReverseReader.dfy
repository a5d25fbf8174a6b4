/** The backwards line reader: a file's lines, last one first. */
module ReverseReader {

  /** The lines in file order, joined by newlines. */
  function Join(lines: seq<seq<char>>): seq<char>
    requires lines != []
  {
    if |lines| == 1 then lines[0] else lines[0] + ['\n'] + Join(lines[1..])
  }

  class FileReverseReader {
    const content: seq<char>
    var pos: int

    ghost predicate Valid()
      reads this
    {
      -1 <= pos <= |content| && (pos == |content| || pos == -1 || content[pos] == '\n')
    }

    constructor (content: seq<char>)
      ensures Valid() && this.content == content && pos == |content|
    {
      this.content := content;
      pos := |content|;
    }

    /** The line that ends at `pos`; afterwards `pos` is at the newline before it, or at -1. */
    method GetLine() returns (line: seq<char>, more: bool)
      requires Valid()
      modifies this`pos
      ensures Valid() && (more <==> old(pos) >= 0)
      ensures !more ==> pos == old(pos)
      ensures more ==> pos < old(pos) && line == content[pos + 1..old(pos)] && '\n' !in line
    {
      if pos < 0 {
        return [], false;
      }
      var pioneer := pos - 1;
      while pioneer >= 0
        invariant -1 <= pioneer < pos
        invariant '\n' !in content[pioneer + 1..pos]
      {
        if content[pioneer] == '\n' {
          break;
        }
        assert content[pioneer..pos] == [content[pioneer]] + content[pioneer + 1..pos];
        pioneer := pioneer - 1;
      }
      line, more := content[pioneer + 1..pos], true;
      pos := pioneer;
    }
  }

  /** Reading until nothing is left: the lines, put back in file order and joined by newlines,
      are the content, and no line holds a newline. */
  method ReadAll(content: seq<char>) returns (lines: seq<seq<char>>)
    ensures lines != [] && Join(lines) == content
    ensures forall i :: 0 <= i < |lines| ==> '\n' !in lines[i]
  {
    var reader := new FileReverseReader(content);
    var line, more := reader.GetLine();
    lines := [line];
    assert content[reader.pos + 1..] == line;
    while more
      invariant reader.Valid() && reader.content == content && lines != []
      invariant Join(lines) == content[reader.pos + 1..]
      invariant forall i :: 0 <= i < |lines| ==> '\n' !in lines[i]
      invariant !more ==> reader.pos == -1
      decreases reader.pos + 1, more
    {
      ghost var from := reader.pos;
      line, more := reader.GetLine();
      if more {
        assert [line] + lines != [] && ([line] + lines)[1..] == lines;
        assert content[reader.pos + 1..] == line + ['\n'] + content[from + 1..];
        lines := [line] + lines;
      }
    }
    assert content[0..] == content;
  }

  /** A text has only one list of newline-free lines, so what is read is the split. */
  lemma {:induction false} LinesAreUnique(a: seq<seq<char>>, b: seq<seq<char>>)
    requires a != [] && b != [] && Join(a) == Join(b)
    requires forall i :: 0 <= i < |a| ==> '\n' !in a[i]
    requires forall i :: 0 <= i < |b| ==> '\n' !in b[i]
    ensures a == b
    decreases |a|
  {
    FirstLine(a);
    FirstLine(b);
    assert |a[0]| == |b[0]|;
    assert a[0] == Join(a)[..|a[0]|] == b[0];
    if |a| > 1 && |b| > 1 {
      assert Join(a[1..]) == Join(a)[|a[0]| + 1..] == Join(b[1..]);
      LinesAreUnique(a[1..], b[1..]);
      assert a == [a[0]] + a[1..] && b == [b[0]] + b[1..];
    } else {
      assert a == [a[0]] && b == [b[0]];
    }
  }

  /** The first line reaches to the first newline, or to the end if it is the only line. */
  lemma {:induction false} FirstLine(lines: seq<seq<char>>)
    requires lines != []
    ensures |Join(lines)| >= |lines[0]| && Join(lines)[..|lines[0]|] == lines[0]
    ensures forall i :: 0 <= i < |lines[0]| ==> Join(lines)[i] == lines[0][i]
    ensures |lines| == 1 ==> |Join(lines)| == |lines[0]|
    ensures |lines| > 1 ==> |Join(lines)| > |lines[0]| && Join(lines)[|lines[0]|] == '\n'
  {
  }
}
