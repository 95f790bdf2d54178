/**
 Keep tags as text: the two tag lines the Java back end writes, and how a line of an
 existing file is recognised. A tag may stand anywhere in a line; its name runs to the
 next space (start tag) or to the end of the line (end tag).
 */
module KeepTagText {

  const START_STRING := "// ***** VDMTOOLS START"
  const END_STRING := "// ***** VDMTOOLS END"
  const NAME_STRING := "Name="
  const KEEP_STRING := "KEEP="

  datatype Opt<T> = None | Some(value: T)

  /** OutOfRange: the position of the keep word lies beyond the line, and taking the substring throws. */
  datatype Flag = Yes | No | IllFormed | OutOfRange

  datatype TagName = TagName(found: bool, name: string, endNamePos: int)

  datatype Line = StartTag(found: bool, name: string, flag: Flag) | EndTag(found: bool, name: string) | Text

  lemma {:induction false} CharAt(text: string, pat: string, k: nat, j: nat)
    requires At(text, pat, k) && j < |pat|
    ensures k + j < |text| && text[k + j] == pat[j]
  {
    assert text[k..k + |pat|][j] == text[k + j];
  }

  lemma {:induction false} Differs(text: string, pat: string, k: nat, j: nat)
    requires j < |pat| && (k + j < |text| ==> text[k + j] != pat[j])
    ensures !At(text, pat, k)
  {
    hide At;
    if At(text, pat, k) { CharAt(text, pat, k, j); }
  }

  predicate At(text: string, pat: string, i: nat) {
    i + |pat| <= |text| && text[i..i + |pat|] == pat
  }

  /** Leftmost occurrence of pat in text at or after from. */
  function Find(text: string, pat: string, from: nat): (r: Opt<nat>)
    ensures r.Some? ==>
              r.value >= from && At(text, pat, r.value) && forall k :: from <= k < r.value ==> !At(text, pat, k)
    ensures r.None? ==> forall k :: from <= k ==> !At(text, pat, k)
    decreases |text| - from
  {
    if from + |pat| > |text| then None
    else if At(text, pat, from) then Some(from)
    else Find(text, pat, from + 1)
  }

  function Substr(text: string, pos: nat, n: nat): string
    requires pos <= |text|
  {
    if pos + n <= |text| then text[pos..pos + n] else text[pos..]
  }

  /** The name in a tag line and the index where it ends, -1 for the end of the line. */
  function GetKeepTagName(text: string, searchPos: nat, expectSpace: bool): (r: TagName)
    ensures r.endNamePos >= -1 && (!r.found ==> r.name == "")
  {
    var namePos := Find(text, NAME_STRING, searchPos + |if expectSpace then START_STRING else END_STRING|);
    if namePos.None? then TagName(false, "", -1)
    else
      var startPos := namePos.value + |NAME_STRING|;
      var stop := Find(text, if expectSpace then " " else "\n", namePos.value);
      if stop.None? then TagName(true, text[startPos..], -1)
      else
        assert stop.value >= startPos by {
          if stop.value < startPos {
            NoStopInNameString(text, namePos.value, stop.value, if expectSpace then " " else "\n");
          }
        }
        TagName(true, text[startPos..stop.value], stop.value)
  }

  lemma {:induction false} NoStopInNameString(text: string, p: nat, q: nat, stop: string)
    requires At(text, NAME_STRING, p) && p <= q < p + |NAME_STRING| && (stop == " " || stop == "\n")
    ensures !At(text, stop, q)
  {
    CharAt(text, NAME_STRING, p, q - p);
    Differs(text, stop, q, 0);
  }

  function KeepFlag(text: string, keepStart: nat): Flag {
    if keepStart > |text| then OutOfRange
    else if Substr(text, keepStart, 3) == "YES" then Yes
    else if Substr(text, keepStart, 2) == "NO" then No
    else IllFormed
  }

  function Classify(line: string): Line {
    var s := Find(line, START_STRING, 0);
    if s.Some? then
      var n := GetKeepTagName(line, s.value, true);
      StartTag(n.found, n.name, if n.name == "" then IllFormed else KeepFlag(line, n.endNamePos + |KEEP_STRING| + 1))
    else
      var e := Find(line, END_STRING, 0);
      if e.Some? then
        var n := GetKeepTagName(line, e.value, false);
        EndTag(n.found, n.name)
      else Text
  }

  function StartTagLine(name: string, keep: bool): string {
    START_STRING + " " + NAME_STRING + name + " " + KEEP_STRING + (if keep then "YES" else "NO")
  }

  function EndTagLine(name: string): string {
    END_STRING + " " + NAME_STRING + name
  }

  /** IND: no spaces for a negative indentation. */
  function Spaces(n: int): (s: string)
    ensures |s| == (if n < 0 then 0 else n) && forall c :: c in s ==> c == ' '
    decreases if n < 0 then 0 else n
  {
    if n <= 0 then "" else " " + Spaces(n - 1)
  }

  predicate GoodName(n: string) { n != "" && ' ' !in n && '\n' !in n }

  // ----- Names taken from lines are good -----

  lemma {:induction false} NameIsGood(text: string, searchPos: nat)
    requires '\n' !in text
    ensures var n := GetKeepTagName(text, searchPos, true); n.name != "" ==> GoodName(n.name)
  {
    hide At, Find;
    var namePos := Find(text, NAME_STRING, searchPos + |START_STRING|);
    if namePos.Some? {
      var startPos := namePos.value + |NAME_STRING|;
      var stop := Find(text, " ", namePos.value);
      Within(text, NAME_STRING, namePos.value);
      if stop.None? {
        NoSpaceBetween(text, startPos, |text|);
        assert text[startPos..] == text[startPos..|text|];
      } else {
        Within(text, " ", stop.value);
        if startPos <= stop.value { NoSpaceBetween(text, startPos, stop.value); }
      }
    }
  }

  lemma {:induction false} Within(text: string, pat: string, i: nat)
    requires At(text, pat, i)
    ensures i + |pat| <= |text|
  {
  }

  lemma {:induction false} CharIsAt(text: string, k: nat)
    requires k < |text|
    ensures At(text, [text[k]], k)
  {
  }

  lemma {:induction false} NoSpaceBetween(text: string, i: nat, j: nat)
    requires i <= j <= |text| && '\n' !in text && forall k :: i <= k < j ==> !At(text, " ", k)
    ensures ' ' !in text[i..j] && '\n' !in text[i..j]
  {
    forall k | i <= k < j ensures text[k] != ' ' && text[k] != '\n' {
      assert text[k] in text;
      CharIsAt(text, k);
    }
  }

  // ----- Printed tags are recognised -----

  lemma {:induction false} FindIs(text: string, pat: string, from: nat, i: nat)
    requires from <= i && At(text, pat, i) && forall k :: from <= k < i ==> !At(text, pat, k)
    ensures Find(text, pat, from) == Some(i)
  {
  }

  lemma {:induction false} NoStopBetween(text: string, i: nat, j: nat, stop: string)
    requires i <= j <= |text| && |stop| == 1 && stop[0] !in text[i..j]
    ensures forall k :: i <= k < j ==> !At(text, stop, k)
  {
    forall k | i <= k < j ensures !At(text, stop, k) {
      assert text[k] == text[i..j][k - i];
      Differs(text, stop, k, 0);
    }
  }

  lemma {:induction false} NameOfTag(prefix: string, name: string, rest: string, stop: string)
    requires GoodName(name) && (stop == " " || stop == "\n")
    ensures var text := prefix + " " + NAME_STRING + name + rest; var p := |prefix| + 1;
            && text[p + |NAME_STRING|..p + |NAME_STRING| + |name|] == name
            && forall k :: p <= k < p + |NAME_STRING| + |name| ==> !At(text, stop, k)
  {
    hide At;
    var text := prefix + " " + NAME_STRING + name + rest;
    var p := |prefix| + 1;
    var q := p + |NAME_STRING| + |name|;
    assert text[p..q] == NAME_STRING + name;
    NoStopBetween(text, p, q, stop);
  }

  lemma {:induction false} StartName(name: string, rest: string)
    requires GoodName(name)
    ensures GetKeepTagName(START_STRING + " " + NAME_STRING + name + (" " + rest), 0, true)
            == TagName(true, name, |START_STRING| + 6 + |name|)
  {
    var text := START_STRING + " " + NAME_STRING + name + (" " + rest);
    var p := |START_STRING| + 1;
    var q := p + |NAME_STRING| + |name|;
    assert text[q..q + 1] == " ";
    assert At(text, " ", q);
    hide At, Find;
    NameFound(START_STRING, name + (" " + rest));
    assert text == START_STRING + " " + NAME_STRING + (name + (" " + rest));
    NameOfTag(START_STRING, name, " " + rest, " ");
    FindIs(text, " ", p, q);
  }

  lemma {:induction false} EndName(name: string)
    requires GoodName(name)
    ensures GetKeepTagName(EndTagLine(name), 0, false) == TagName(true, name, -1)
  {
    var text := EndTagLine(name);
    var p := |END_STRING| + 1;
    var q := p + |NAME_STRING| + |name|;
    assert |text| == q;
    assert forall k: nat :: k >= q ==> !At(text, "\n", k);
    hide At;
    NameFound(END_STRING, name);
    assert text == END_STRING + " " + NAME_STRING + name + "";
    NameOfTag(END_STRING, name, "", "\n");
    assert Find(text, "\n", p).None?;
    assert text[p + |NAME_STRING|..] == text[p + |NAME_STRING|..q];
  }

  lemma {:induction false} NameFound(prefix: string, tail: string)
    ensures Find(prefix + " " + NAME_STRING + tail, NAME_STRING, |prefix|) == Some(|prefix| + 1)
  {
    var text := prefix + " " + NAME_STRING + tail;
    var p := |prefix| + 1;
    assert text[p..p + |NAME_STRING|] == NAME_STRING;
    assert text[|prefix|] == ' ';
    if At(text, NAME_STRING, |prefix|) { CharAt(text, NAME_STRING, |prefix|, 0); }
    FindIs(text, NAME_STRING, |prefix|, p);
  }

  lemma {:induction false} StartTagReads(name: string, keep: bool)
    requires GoodName(name)
    ensures Classify(StartTagLine(name, keep)) == StartTag(true, name, if keep then Yes else No)
  {
    hide GetKeepTagName, Find, KeepFlag;
    var line := StartTagLine(name, keep);
    var word := if keep then "YES" else "NO";
    assert line == START_STRING + " " + NAME_STRING + name + (" " + (KEEP_STRING + word));
    assert line[0..|START_STRING|] == START_STRING;
    FindIs(line, START_STRING, 0, 0);
    StartName(name, KEEP_STRING + word);
    var keepStart := |START_STRING| + 6 + |name| + |KEEP_STRING| + 1;
    assert line[keepStart..] == word;
    FlagOfWord(line, keepStart, keep);
  }

  /** A start tag whose line ends before the keep word's value: the substring throws. */
  lemma {:induction false} ShortTagThrows(name: string, rest: string)
    requires GoodName(name) && |rest| < |KEEP_STRING|
    ensures Classify(START_STRING + " " + NAME_STRING + name + (" " + rest)) == StartTag(true, name, OutOfRange)
  {
    hide GetKeepTagName, Find;
    var line := START_STRING + " " + NAME_STRING + name + (" " + rest);
    assert line[0..|START_STRING|] == START_STRING;
    FindIs(line, START_STRING, 0, 0);
    StartName(name, rest);
  }

  lemma {:induction false} FlagOfWord(line: string, keepStart: nat, keep: bool)
    requires keepStart <= |line| && line[keepStart..] == (if keep then "YES" else "NO")
    ensures KeepFlag(line, keepStart) == if keep then Yes else No
  {
    if keep {
      assert line[keepStart..keepStart + 3] == "YES";
    } else {
      assert |Substr(line, keepStart, 3)| == 2;
      assert line[keepStart..keepStart + 2] == "NO";
    }
  }

  lemma {:induction false} EndTagReads(name: string)
    requires GoodName(name)
    ensures Classify(EndTagLine(name)) == EndTag(true, name)
  {
    var line := EndTagLine(name);
    hide GetKeepTagName, Find;
    NoStartInEndTag(name);
    assert line[0..|END_STRING|] == END_STRING;
    FindIs(line, END_STRING, 0, 0);
    EndName(name);
  }

  /** The spaces of an end tag line are too few to hold a start tag. */
  lemma {:induction false} NoStartInEndTag(name: string)
    requires GoodName(name)
    ensures Find(EndTagLine(name), START_STRING, 0).None?
  {
    hide At, GoodName, EndTagLine;
    forall k: nat ensures !At(EndTagLine(name), START_STRING, k) { NoStartAt(name, k); }
  }

  lemma {:induction false} NoStartAt(name: string, k: nat)
    requires GoodName(name)
    ensures !At(EndTagLine(name), START_STRING, k)
  {
    hide At, GoodName, EndTagLine;
    LettersOfTags(name);
    if k == 0 {
      Differs(EndTagLine(name), START_STRING, k, 18);
    } else if k == 6 || k == 15 || k == 19 {
      SpacesOfEndTag(name, k + 8);
      Differs(EndTagLine(name), START_STRING, k, 8);
    } else {
      SpacesOfEndTag(name, k + 2);
      Differs(EndTagLine(name), START_STRING, k, 2);
    }
  }

  lemma {:induction false} LettersOfTags(name: string)
    ensures START_STRING[2] == ' ' && START_STRING[8] == ' ' && START_STRING[18] == 'S'
    ensures |EndTagLine(name)| > 18 && EndTagLine(name)[18] == 'E'
  {
    assert EndTagLine(name)[18] == END_STRING[18];
  }

  lemma {:induction false} SpacesOfEndTag(name: string, i: nat)
    requires GoodName(name) && i != 2 && i != 8 && i != 17 && i != 21
    ensures i < |EndTagLine(name)| ==> EndTagLine(name)[i] != ' '
  {
    var prefix := END_STRING + " " + NAME_STRING;
    if |prefix| <= i < |EndTagLine(name)| {
      assert EndTagLine(name)[i] == name[i - |prefix|];
      assert name[i - |prefix|] in name;
    } else if i < |prefix| {
      assert EndTagLine(name)[i] == prefix[i];
    }
  }

  /** Indenting a line adds no tag. */
  lemma {:induction false} IndentedText(n: int, t: string)
    requires Classify(t) == Text
    ensures Classify(Spaces(n) + t) == Text
  {
    NoneIndented(n, t, START_STRING);
    NoneIndented(n, t, END_STRING);
  }

  lemma {:induction false} NoneIndented(n: int, t: string, pat: string)
    requires pat == START_STRING || pat == END_STRING
    requires Find(t, pat, 0).None?
    ensures Find(Spaces(n) + t, pat, 0).None?
  {
    hide At;
    var s := Spaces(n) + t;
    forall k: nat ensures !At(s, pat, k) {
      if k < n {
        SpaceAt(n, t, k);
        Differs(s, pat, k, 0);
      } else if At(s, pat, k) {
        AtShifted(Spaces(n), t, pat, k);
      }
    }
  }

  lemma {:induction false} SpaceAt(n: int, t: string, k: nat)
    requires k < n
    ensures (Spaces(n) + t)[k] == ' '
  {
    assert Spaces(n)[k] in Spaces(n);
  }

  lemma {:induction false} AtShifted(a: string, t: string, pat: string, k: nat)
    requires At(a + t, pat, k) && k >= |a|
    ensures At(t, pat, k - |a|)
  {
    assert t[k - |a|..k - |a| + |pat|] == (a + t)[k..k + |pat|];
  }
}
