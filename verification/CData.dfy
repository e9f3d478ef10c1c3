/**
 Character data in generated XML. A CDATA section ends at the first "]]>"
 (section 2.7 of XML 1.0), so the text is spread over several sections where it
 contains this sequence itself. Text goes through printf, which stops at a NUL.
 */
module CData {
  import opened Wrappers


  const OPEN := "<![CDATA["
  const CLOSE := "]]>"
  const SPLIT := "]]]]><![CDATA[>"

  predicate StartsWith(t: string, p: string) {
    |p| <= |t| && t[..|p|] == p
  }

  /** The section end stands at position i. */
  predicate ClosesAt(t: string, i: int) {
    0 <= i && i + 3 <= |t| && t[i] == ']' && t[i + 1] == ']' && t[i + 2] == '>'
  }

  /** Position of the first section end, or the length of the text. */
  function Find(t: string): (k: nat)
    ensures k <= |t| && (k < |t| ==> ClosesAt(t, k)) && forall i :: 0 <= i < k ==> !ClosesAt(t, i)
  {
    if t == "" || ClosesAt(t, 0) then 0
    else
      var k := 1 + Find(t[1..]);
      assert forall i :: 0 < i < k ==> ClosesAt(t, i) ==> ClosesAt(t[1..], i - 1);
      k
  }

  function Escape(s: string): (e: string) {
    var k := Find(s);
    if k == |s| then s else s[..k] + SPLIT + Escape(s[k + 3..])
  }

  /** std::string::find from a position on. */
  method FindFrom(s: string, pos: nat) returns (k: nat)
    requires pos <= |s|
    ensures k == pos + Find(s[pos..])
  {
    k := pos;
    while k < |s| && !ClosesAt(s, k)
      invariant pos <= k <= |s| && pos + Find(s[pos..]) == k + Find(s[k..])
    {
      assert !ClosesAt(s[k..], 0) && s[k..][1..] == s[k + 1..];
      k := k + 1;
    }
    if k < |s| {
      assert ClosesAt(s[k..], 0);
    }
  }

  lemma EscapeEnd(t: string)
    requires Find(t) == |t|
    ensures Escape(t) == t
  {
  }

  lemma EscapeStep(str: string, opos: nat, pos: nat, before: string, ret: string)
    requires opos <= pos < |str| && pos == opos + Find(str[opos..]) && ret == before + str[opos..pos] + SPLIT
    ensures pos + 3 <= |str| && ret + Escape(str[pos + 3..]) == before + Escape(str[opos..])
  {
    var rest, k := str[opos..], pos - opos;
    assert Escape(rest) == str[opos..pos] + SPLIT + Escape(str[pos + 3..]) by {
      assert rest[..k] == str[opos..pos] && rest[k + 3..] == str[pos + 3..];
    }
    Associative(before, str[opos..pos], SPLIT);
    Associative(before, str[opos..pos] + SPLIT, Escape(str[pos + 3..]));
  }

  /** cDataEscape */
  method CDataEscape(str: string) returns (ret: string)
    ensures ret == Escape(str)
  {
    hide Find, Escape;
    ret := "";
    var pos := 0;
    assert ret + Escape(str[pos..]) == Escape(str) by {
      assert str[0..] == str;
    }
    while true
      invariant 0 <= pos <= |str| && ret + Escape(str[pos..]) == Escape(str)
      decreases |str| - pos
    {
      var opos := pos;
      pos := FindFrom(str, opos);
      if pos == |str| {
        EscapeEnd(str[opos..]);
        return ret + str[opos..];
      }
      ghost var before := ret;
      ret := ret + str[opos..pos] + SPLIT;
      EscapeStep(str, opos, pos, before, ret);
      pos := pos + 3;
    }
  }

  /** The end of a section inside the text is spread over two sections. */
  lemma EscapesOneEnd()
    ensures Escape("a]]>b") == "a]]]]><![CDATA[>b"
  {
    var s := "a]]>b";
    assert !ClosesAt(s, 0) && ClosesAt(s, 1);
    assert s[..1] == "a" && s[4..] == "b";
    assert Find("b") == 1;
  }

  // ---------------------------------------------------------------- reading it back

  /** Character data and what follows it, or a section that does not end. */
  datatype Reading = Unfinished | Reading(text: string, rest: string)

  function Behind(text: string, r: Reading): (q: Reading) {
    if r.Unfinished? then r else Reading(text + r.text, r.rest)
  }

  /** The text of adjacent sections, from inside the first one, and what follows them. */
  function ReadInside(inside: string): (r: Reading) {
    var k := Find(inside);
    if k == |inside| then Unfinished
    else
      var after := inside[k + 3..];
      if !StartsWith(after, OPEN) then Reading(inside[..k], after)
      else Behind(inside[..k], ReadInside(after[|OPEN|..]))
  }

  /** A reader of the character data that a text begins with. */
  function ReadSections(t: string): (r: Reading) {
    if StartsWith(t, OPEN) then ReadInside(t[|OPEN|..]) else Unfinished
  }

  /** A text without a section end, the sequence "]]>", and anything: the section ends there. */
  lemma FirstCloseIsTheTerminator(chunk: string, after: string)
    requires Find(chunk) == |chunk|
    ensures Find(chunk + CLOSE + after) == |chunk|
  {
    var t := chunk + CLOSE + after;
    forall i | 0 <= i < |chunk|
      ensures !ClosesAt(t, i)
    {
      if i + 3 <= |chunk| {
        assert ClosesAt(t, i) ==> ClosesAt(chunk, i);
      } else {
        assert t[i + 2] == CLOSE[i + 2 - |chunk|];
      }
    }
    assert ClosesAt(t, |chunk|);
  }

  /** Brackets and text before and after a part without section ends do not make one. */
  lemma NoNewClose(head: string, chunk: string, brackets: string)
    requires Find(chunk) == |chunk| && (head == "\n" || head == ">") && (brackets == "" || brackets == "]]")
    ensures Find(head + chunk + brackets) == |head + chunk + brackets|
  {
    var t := head + chunk + brackets;
    forall i | 0 <= i < |t| - 2
      ensures !ClosesAt(t, i)
    {
      if i == 0 {
        assert t[0] == head[0];
      } else if i + 2 <= |chunk| {
        assert t[i] == chunk[i - 1] && t[i + 1] == chunk[i] && t[i + 2] == chunk[i + 1] && !ClosesAt(chunk, i - 1);
      } else {
        assert t[i + 2] == brackets[i + 1 - |chunk|];
      }
    }
  }

  /** What follows the opening of a section, up to the end of the last one, is read back. */
  lemma {:induction false} ReadsBack(head: string, s: string, tail: string)
    requires (head == "\n" || head == ">") && !StartsWith(tail, OPEN)
    ensures ReadInside(head + Escape(s) + CLOSE + tail) == Reading(head + s, tail)
    decreases |s|
  {
    var k := Find(s);
    if k == |s| {
      NoNewClose(head, s, "");
      assert head + s + "" == head + s;
      ReadsLast(head + s, tail);
    } else {
      FindInPrefix(s, k);
      ReadsBack(">", s[k + 3..], tail);
      ReadsSplit(head, s[..k], s[k + 3..], Escape(s[k + 3..]), tail);
      Rejoin(head, s, k);
    }
  }

  lemma ReadsSplit(head: string, chunk: string, rest: string, escaped: string, tail: string)
    requires (head == "\n" || head == ">") && Find(chunk) == |chunk|
    ensures ReadInside(">" + escaped + CLOSE + tail) == Reading(">" + rest, tail) ==>
      ReadInside(head + (chunk + SPLIT + escaped) + CLOSE + tail) == Reading((head + chunk + "]]") + (">" + rest), tail)
  {
    NoNewClose(head, chunk, "]]");
    ReadsFirst(head + chunk + "]]", ">" + escaped + CLOSE + tail);
    Regroup(head, chunk, escaped, tail);
  }

  lemma Regroup(head: string, chunk: string, escaped: string, tail: string)
    ensures head + (chunk + SPLIT + escaped) + CLOSE + tail ==
      (head + chunk + "]]") + CLOSE + (OPEN + (">" + escaped + CLOSE + tail))
  {
    assert SPLIT == "]]" + CLOSE + OPEN + ">";
  }

  lemma Rejoin(head: string, s: string, k: nat)
    requires ClosesAt(s, k)
    ensures (head + s[..k] + "]]") + (">" + s[k + 3..]) == head + s
  {
    assert s == s[..k] + ("]]" + ">") + s[k + 3..];
  }

  lemma FindInPrefix(s: string, k: nat)
    requires k <= Find(s)
    ensures Find(s[..k]) == k
  {
    forall i | 0 <= i < k - 2
      ensures !ClosesAt(s[..k], i)
    {
      assert !ClosesAt(s, i);
    }
  }

  lemma ReadsLast(text: string, tail: string)
    requires Find(text) == |text| && !StartsWith(tail, OPEN)
    ensures ReadInside(text + CLOSE + tail) == Reading(text, tail)
  {
    FirstCloseIsTheTerminator(text, tail);
    Around(text, CLOSE, tail);
  }

  lemma ReadsFirst(text: string, more: string)
    requires Find(text) == |text|
    ensures ReadInside(text + CLOSE + (OPEN + more)) ==
      Behind(text, ReadInside(more))
  {
    FirstCloseIsTheTerminator(text, OPEN + more);
    Around(text, CLOSE, OPEN + more);
    Around("", OPEN, more);
    assert "" + OPEN + more == OPEN + more;
  }

  lemma Around(a: string, mark: string, b: string)
    ensures (a + mark + b)[..|a|] == a && (a + mark + b)[|a| + |mark|..] == b
      && (a + mark + b)[..|a| + |mark|] == a + mark
  {
  }

  // ---------------------------------------------------------------- the generator

  /** c_str() as printf reads it: up to the first NUL. */
  function CStr(s: string): (t: string)
    ensures t <= s && '\0' !in t && (t == s || s[|t|] == '\0')
  {
    if s == "" || s[0] == '\0' then "" else [s[0]] + CStr(s[1..])
  }

  predicate NulFree(s: string) {
    '\0' !in s
  }

  lemma {:induction false} CStrAppend(a: string, b: string)
    ensures CStr(a + b) == if NulFree(a) then a + CStr(b) else CStr(a)
    decreases |a|
  {
    if a == "" {
      assert a + b == b && a + CStr(b) == CStr(b);
    } else {
      CStrAppend(a[1..], b);
      CStrCons(a[0], a[1..]);
      CStrCons(a[0], a[1..] + b);
      Cons(a, b);
      Cons(a, CStr(b));
    }
  }

  lemma CStrCons(c: char, t: string)
    ensures CStr([c] + t) == if c == '\0' then "" else [c] + CStr(t)
    ensures NulFree([c] + t) <==> c != '\0' && NulFree(t)
  {
    assert ([c] + t)[1..] == t;
  }

  lemma Cons(a: string, b: string)
    requires a != ""
    ensures a == [a[0]] + a[1..] && a + b == [a[0]] + (a[1..] + b)
  {
  }

  lemma CutAround(chunk: string, mark: string, rest: string)
    requires NulFree(mark)
    ensures CStr(chunk + mark + rest) == if NulFree(chunk) then chunk + mark + CStr(rest) else CStr(chunk)
  {
    CStrAppend(chunk, mark);
    CStrAppend(chunk + mark, rest);
  }

  lemma CutAtMarks(chunk: string, rest: string, escaped: string)
    ensures CStr(chunk + CLOSE + rest) == if NulFree(chunk) then chunk + CLOSE + CStr(rest) else CStr(chunk)
    ensures CStr(chunk + SPLIT + escaped) == if NulFree(chunk) then chunk + SPLIT + CStr(escaped) else CStr(chunk)
  {
    MarksAreNulFree();
    CutAround(chunk, CLOSE, rest);
    CutAround(chunk, SPLIT, escaped);
  }

  lemma MarksAreNulFree()
    ensures NulFree(CLOSE) && NulFree(SPLIT)
  {
  }

  /** A text without a section end is escaped to itself. */
  lemma EscapesAround(chunk: string, rest: string)
    requires Find(chunk) == |chunk|
    ensures Escape(chunk) == chunk && Escape(chunk + CLOSE + rest) == chunk + SPLIT + Escape(rest)
  {
    FirstCloseIsTheTerminator(chunk, rest);
    Around(chunk, CLOSE, rest);
  }

  /** Cutting and escaping commute. */
  lemma {:induction false} EscapeThenCut(s: string)
    ensures CStr(Escape(s)) == Escape(CStr(s))
    decreases |s|
  {
    var k := Find(s);
    if k == |s| {
      FindInPrefix(s, |CStr(s)|);
      assert CStr(s) == s[..|CStr(s)|];
    } else {
      FindInPrefix(s, k);
      SplitsAt(s, k);
      EscapeThenCut(s[k + 3..]);
      CommutesAt(s[..k], s[k + 3..]);
    }
  }

  lemma CommutesAt(chunk: string, rest: string)
    requires Find(chunk) == |chunk|
    ensures CStr(Escape(rest)) == Escape(CStr(rest)) ==>
      CStr(Escape(chunk + CLOSE + rest)) == Escape(CStr(chunk + CLOSE + rest))
  {
    CutAtMarks(chunk, rest, Escape(rest));
    EscapesAround(chunk, rest);
    EscapesAround(chunk, CStr(rest));
    FindInPrefix(chunk, |CStr(chunk)|);
    assert CStr(chunk) == chunk[..|CStr(chunk)|];
  }

  lemma SplitsAt(s: string, k: nat)
    requires ClosesAt(s, k)
    ensures s == s[..k] + CLOSE + s[k + 3..]
  {
    assert s[k..k + 3] == CLOSE;
  }

  function Tabs(n: nat): (t: string) {
    if n == 0 then "" else "\t" + Tabs(n - 1)
  }

  function Indent(indent: bool, n: nat): (t: string) {
    if indent then Tabs(n) else ""
  }

  function Line(indent: bool, n: nat, text: string): (t: string) {
    Indent(indent, n) + text + "\n"
  }

  /** The character data that cDataFromString writes. */
  function Sections(str: string): (t: string) {
    OPEN + "\n" + CStr(Escape(str)) + CLOSE
  }

  function StartTag(tag: string): (t: string) {
    "<" + CStr(tag) + ">"
  }

  function EndTag(tag: string): (t: string) {
    "</" + CStr(tag) + ">"
  }

  class XmlGenerator {
    var file: string
    var indent: bool
    var level: nat
    var tags: seq<string>

    /** There is one level for each open tag. */
    ghost predicate Valid()
      reads this
    {
      level == |tags|
    }

    constructor ()
      ensures Valid() && level == 0 && indent && file == "<?xml version=\"1.0\" encoding=\"utf-8\"?>\n"
    {
      file, indent, level, tags := "<?xml version=\"1.0\" encoding=\"utf-8\"?>\n", true, 0, [];
    }

    method VPrint(text: string, newline: bool)
      modifies `file
      ensures file == old(file) + (if newline then Line(indent, level, text) else Indent(indent, level) + text)
    {
      ghost var before := file;
      if indent {
        var i := 0;
        while i < level
          invariant 0 <= i <= level && file + Tabs(level - i) == old(file) + Tabs(level)
        {
          assert file + Tabs(level - i) == (file + "\t") + Tabs(level - i - 1);
          file := file + "\t";
          i := i + 1;
        }
        assert file == file + Tabs(0);
      }
      assert file == before + Indent(indent, level);
      file := file + text;
      if newline {
        file := file + "\n";
      }
    }

    method Open(tag: string)
      requires Valid()
      modifies this
      ensures Valid() && indent == old(indent) && tags == old(tags) + [tag]
      ensures file == old(file) + Line(indent, old(level), StartTag(tag))
    {
      VPrint(StartTag(tag), true);
      tags := tags + [tag];
      level := level + 1;
    }

    method Close()
      requires Valid() && tags != []
      modifies this
      ensures Valid() && indent && tags == old(tags[..|tags| - 1])
      ensures level == old(level) - 1 && file == old(file) + Line(old(indent), level, EndTag(old(tags[|tags| - 1])))
    {
      level := level - 1;
      VPrint(EndTag(tags[|tags| - 1]), true);
      indent := true;
      tags := tags[..|tags| - 1];
    }

    /** cDataFromString: the element holds the sections, which begin on a line of their own. */
    method CDataFromString(tag: string, str: string)
      requires Valid()
      modifies this
      ensures Valid() && tags == old(tags) && indent
      ensures file == old(file) + Line(old(indent), level, StartTag(tag)) + Indent(old(indent), level + 1)
                      + Sections(str) + "\n" + Line(old(indent), level, EndTag(tag))
    {
      var indent := false;
      Open(tag);
      ghost var start := file;
      VPrint(OPEN, true);
      this.indent, indent := indent, this.indent;
      var escaped := CDataEscape(str);
      VPrint(CStr(escaped), false);
      VPrint(CLOSE, true);
      this.indent, indent := indent, this.indent;
      RegroupLines(start, Indent(this.indent, level), CStr(escaped));
      Close();
    }
  }

  lemma RegroupLines(start: string, indent: string, text: string)
    ensures start + (indent + OPEN + "\n") + ("" + text) + ("" + CLOSE + "\n") ==
      start + indent + (OPEN + "\n" + text + CLOSE) + "\n"
  {
  }

  /** The sections are read back as a newline and the text before its first NUL. */
  lemma SectionsReadBack(str: string, tail: string)
    requires !StartsWith(tail, OPEN)
    ensures ReadSections(Sections(str) + tail) == Reading("\n" + CStr(str), tail)
  {
    EscapeThenCut(str);
    ReadsBack("\n", CStr(str), tail);
    RegroupSections(Escape(CStr(str)), tail);
  }

  lemma RegroupSections(escaped: string, tail: string)
    ensures var t := (OPEN + "\n" + escaped + CLOSE) + tail;
      StartsWith(t, OPEN) && t[|OPEN|..] == "\n" + escaped + CLOSE + tail
  {
    Around("", OPEN, "\n" + escaped + CLOSE + tail);
  }

  /** So the text comes back unchanged, behind a newline, exactly if it has no NUL. */
  lemma TextComesBack(str: string, tail: string)
    requires !StartsWith(tail, OPEN)
    ensures ReadSections(Sections(str) + tail) == Reading("\n" + str, tail) <==> NulFree(str)
  {
    SectionsReadBack(str, tail);
    if "\n" + CStr(str) == "\n" + str {
      assert ("\n" + CStr(str))[1..] == CStr(str) && ("\n" + str)[1..] == str;
    }
  }
}
