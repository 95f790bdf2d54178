/**
 ReadJavaFile: a pass over the lines of an existing Java file that collects the text
 of every kept region. Step is the effect of one line on the reader's variables; Regions
 says, without a state machine, which stretches of the file are regions.
 */
module KeepTagReader {
  import opened KeepTagText

  /** existingEntitiesMap and existingEntitiesOrder. */
  datatype Keeps = Keeps(codes: map<string, string>, order: seq<string>)

  const NOTHING_KEPT := Keeps(map[], [])

  /** The first region of a name wins. */
  function Register(k: Keeps, name: string, code: string): Keeps {
    if name in k.codes then k else Keeps(k.codes[name := code], k.order + [name])
  }

  datatype Warning = Nested | Mismatch | Repeated | BadLine

  datatype Reader =
    | Thrown
    | Reader(within: bool, keeping: bool, name: string, code: string, keeps: Keeps, log: seq<Warning>)

  const INITIAL := Reader(false, false, "", "", NOTHING_KEPT, [])

  function OnStart(s: Reader, found: bool, name: string, flag: Flag): Reader
    requires s.Reader?
  {
    if s.within then s.(log := s.log + [Nested])
    else if name == "" then s.(code := "", log := if found then s.log else s.log + [BadLine])
    else match flag
      case Yes => s.(code := "", name := name, keeping := true, within := true)
      case No => s.(code := "", name := name, keeping := false, within := true)
      case IllFormed => s.(code := "", name := name, log := s.log + [BadLine])
      case OutOfRange => Thrown
  }

  function OnEnd(s: Reader, found: bool, name: string): Reader
    requires s.Reader?
  {
    if !s.within then s.(log := s.log + [Nested])
    else
      var t := if found then s else s.(log := s.log + [BadLine]);
      if name != s.name then t.(log := t.log + [Mismatch])
      else if !s.keeping then t.(within := false)
      else if name in s.keeps.codes then t.(within := false, keeping := false, log := t.log + [Repeated])
      else t.(within := false, keeping := false, keeps := Register(s.keeps, name, s.code))
  }

  function OnText(s: Reader, line: string): Reader
    requires s.Reader?
  {
    if s.keeping then s.(code := s.code + line + "\n") else s
  }

  /** One line of the file. */
  function Step(s: Reader, line: string): Reader {
    if s.Thrown? then s
    else match Classify(line)
      case StartTag(found, name, flag) => OnStart(s, found, name, flag)
      case EndTag(found, name) => OnEnd(s, found, name)
      case Text => OnText(s, line)
  }

  function StepAll(s: Reader, ls: seq<string>): Reader
    decreases |ls|
  {
    if ls == [] then s else StepAll(Step(s, ls[0]), ls[1..])
  }

  // ----- Character by character -----

  /** A line under way and the state after the lines before it. */
  datatype Scan = Scan(cur: string, s: Reader)

  function FeedChar(f: Scan, c: char): Scan {
    if c == '\n' then Scan("", Step(f.s, f.cur)) else Scan(f.cur + [c], f.s)
  }

  function Feed(f: Scan, text: string): Scan
    decreases |text|
  {
    if text == "" then f else Feed(FeedChar(f, text[0]), text[1..])
  }

  /** The last line needs no newline. */
  function Finish(f: Scan): Reader {
    if f.cur == "" then f.s else Step(f.s, f.cur)
  }

  function ReadText(text: string): Reader {
    Finish(Feed(Scan("", INITIAL), text))
  }

  function LinesFrom(cur: string, text: string): seq<string>
    decreases |text|
  {
    if text == "" then (if cur == "" then [] else [cur])
    else if text[0] == '\n' then [cur] + LinesFrom("", text[1..])
    else LinesFrom(cur + [text[0]], text[1..])
  }

  function Lines(text: string): seq<string> { LinesFrom("", text) }

  lemma {:induction false} FeedIsStepAll(f: Scan, text: string)
    ensures Finish(Feed(f, text)) == StepAll(f.s, LinesFrom(f.cur, text))
    decreases |text|
  {
    hide Step;
    if text == "" {
      if f.cur != "" { assert StepAll(f.s, [f.cur]) == StepAll(Step(f.s, f.cur), []); }
    } else {
      FeedIsStepAll(FeedChar(f, text[0]), text[1..]);
      if text[0] == '\n' {
        var rest := LinesFrom("", text[1..]);
        assert ([f.cur] + rest)[1..] == rest;
      }
    }
  }

  lemma {:induction false} FeedConcat(f: Scan, a: string, b: string)
    ensures Feed(f, a + b) == Feed(Feed(f, a), b)
    decreases |a|
  {
    hide FeedChar;
    if a == "" {
      assert a + b == b;
    } else {
      FeedConcat(FeedChar(f, a[0]), a[1..], b);
      assert (a + b)[1..] == a[1..] + b;
    }
  }

  /** Text without newlines only extends the line under way. */
  lemma {:induction false} FeedWithin(f: Scan, t: string)
    requires '\n' !in t
    ensures Feed(f, t) == Scan(f.cur + t, f.s)
    decreases |t|
  {
    if t == "" {
      assert f.cur + t == f.cur;
    } else {
      assert t[0] in t && forall c :: c in t[1..] ==> c in t;
      FeedWithin(FeedChar(f, t[0]), t[1..]);
      assert f.cur + [t[0]] + t[1..] == f.cur + t;
    }
  }

  lemma {:induction false} FeedLine(f: Scan, t: string)
    requires '\n' !in t
    ensures Feed(f, t + "\n") == Scan("", Step(f.s, f.cur + t))
  {
    hide Step;
    FeedConcat(f, t, "\n");
    FeedWithin(f, t);
    assert Feed(Scan(f.cur + t, f.s), "\n") == Feed(FeedChar(Scan(f.cur + t, f.s), '\n'), "");
  }

  // ----- Tag-free text -----

  /** cur + t is a sequence of whole lines, none of them a tag. */
  predicate Clean(cur: string, t: string)
    decreases |t|
  {
    if t == "" then cur == ""
    else if t[0] == '\n' then Classify(cur) == Text && Clean("", t[1..])
    else Clean(cur + [t[0]], t[1..])
  }

  lemma {:induction false} CleanConcat(cur: string, a: string, b: string)
    requires Clean(cur, a) && Clean("", b)
    ensures Clean(cur, a + b)
    decreases |a|
  {
    hide Classify;
    if a == "" {
      assert a + b == b;
    } else {
      assert (a + b)[1..] == a[1..] + b;
      CleanConcat(if a[0] == '\n' then "" else cur + [a[0]], a[1..], b);
    }
  }

  lemma {:induction false} CleanLine(cur: string, t: string)
    requires '\n' !in t && Classify(cur + t) == Text
    ensures Clean(cur, t + "\n")
    decreases |t|
  {
    hide Classify;
    if t == "" {
      assert cur + t == cur;
      assert (t + "\n")[1..] == "";
    } else {
      assert t[0] in t && forall c :: c in t[1..] ==> c in t;
      assert (t + "\n")[1..] == t[1..] + "\n";
      assert cur + [t[0]] + t[1..] == cur + t;
      CleanLine(cur + [t[0]], t[1..]);
    }
  }

  /** Tag-free text goes verbatim into the code of a kept region, and nowhere else. */
  lemma {:induction false} FeedClean(f: Scan, t: string)
    requires f.s.Reader? && Clean(f.cur, t)
    ensures Feed(f, t) == Scan("", f.s.(code := if f.s.keeping then f.s.code + f.cur + t else f.s.code))
    decreases |t|
  {
    hide Classify;
    if t == "" {
      assert f.s.code + f.cur + t == f.s.code;
    } else {
      FeedClean(FeedChar(f, t[0]), t[1..]);
      if t[0] == '\n' {
        assert f.s.code + f.cur + "\n" + "" + t[1..] == f.s.code + f.cur + t;
      } else {
        assert f.s.code + (f.cur + [t[0]]) + t[1..] == f.s.code + f.cur + t;
      }
    }
  }

  // ----- What holds of the reader in every run -----

  function Names(order: seq<string>): set<string> { set n | n in order }

  predicate Distinct(order: seq<string>) {
    forall i, j :: 0 <= i < j < |order| ==> order[i] != order[j]
  }

  ghost predicate KeepsOk(k: Keeps) {
    && Distinct(k.order) && Names(k.order) == k.codes.Keys
    && forall n :: n in k.codes ==> GoodName(n) && Clean("", k.codes[n])
  }

  /** Text is kept only within a tag; the sequence lists the map's keys once each. */
  ghost predicate ReaderOk(s: Reader) {
    s.Reader? ==>
      && (s.keeping ==> s.within)
      && (s.within ==> GoodName(s.name))
      && Clean("", s.code)
      && KeepsOk(s.keeps)
  }

  lemma {:induction false} RegisterOk(k: Keeps, name: string, code: string)
    requires KeepsOk(k) && GoodName(name) && Clean("", code)
    ensures KeepsOk(Register(k, name, code))
  {
    hide Clean, GoodName;
    var r := Register(k, name, code);
    if name !in k.codes {
      assert name !in Names(k.order);
      assert forall i :: 0 <= i < |k.order| ==> k.order[i] in Names(k.order);
      assert Names(r.order) == Names(k.order) + {name};
    }
  }

  lemma {:induction false} StepOk(s: Reader, line: string)
    requires ReaderOk(s) && '\n' !in line
    ensures ReaderOk(Step(s, line))
  {
    hide Classify, KeepsOk, Register, GoodName;
    if s.Reader? {
      match Classify(line)
      case StartTag(found, name, flag) => ClassifiedName(line);
      case EndTag(found, name) =>
        if s.within && name == s.name && s.keeping { RegisterOk(s.keeps, name, s.code); }
      case Text =>
        assert "" + line == line;
        CleanLine("", line);
        CleanConcat("", s.code, line + "\n");
        assert s.code + line + "\n" == s.code + (line + "\n");
    }
  }

  lemma {:induction false} ClassifiedName(line: string)
    requires Classify(line).StartTag? && '\n' !in line
    ensures Classify(line).name != "" ==> GoodName(Classify(line).name)
  {
    hide GetKeepTagName, KeepFlag, GoodName;
    NameIsGood(line, Find(line, START_STRING, 0).value);
  }

  lemma {:induction false} FeedOk(f: Scan, text: string)
    requires ReaderOk(f.s) && '\n' !in f.cur
    ensures ReaderOk(Feed(f, text).s) && '\n' !in Feed(f, text).cur
    decreases |text|
  {
    hide Step, ReaderOk;
    if text != "" {
      if text[0] == '\n' { StepOk(f.s, f.cur); }
      FeedOk(FeedChar(f, text[0]), text[1..]);
    }
  }

  /** On any file: no duplicates in the kept sequence, and its elements are the map's keys. */
  lemma {:induction false} ReadTextOk(text: string)
    ensures ReaderOk(ReadText(text))
    ensures ReadText(text).Reader? ==> KeepsOk(ReadText(text).keeps)
  {
    assert ReaderOk(INITIAL);
    hide Step, Feed, KeepsOk;
    FeedOk(Scan("", INITIAL), text);
    var f := Feed(Scan("", INITIAL), text);
    if f.cur != "" { StepOk(f.s, f.cur); }
  }

  // ----- Regions, declaratively -----

  predicate Opens(line: string) {
    var c := Classify(line);
    c.StartTag? && c.name != "" && c.flag != IllFormed
  }

  predicate Closes(line: string, name: string) {
    Classify(line).EndTag? && Classify(line).name == name
  }

  /** First line from i on that opens a region. */
  function Opening(ls: seq<string>, i: nat): (k: nat)
    requires i <= |ls|
    ensures i <= k <= |ls| && (k < |ls| ==> Opens(ls[k])) && forall j :: i <= j < k ==> !Opens(ls[j])
    decreases |ls| - i
  {
    if i == |ls| || Opens(ls[i]) then i else Opening(ls, i + 1)
  }

  /** First line from i on that ends a region of this name. */
  function Closing(ls: seq<string>, i: nat, name: string): (k: nat)
    requires i <= |ls|
    ensures i <= k <= |ls| && (k < |ls| ==> Closes(ls[k], name)) && forall j :: i <= j < k ==> !Closes(ls[j], name)
    decreases |ls| - i
  {
    if i == |ls| || Closes(ls[i], name) then i else Closing(ls, i + 1, name)
  }

  datatype Region = Region(name: string, keep: bool, open: nat, close: nat)

  function NameAt(ls: seq<string>, k: nat): string
    requires k < |ls| && Opens(ls[k])
  {
    Classify(ls[k]).name
  }

  predicate KeepAt(ls: seq<string>, k: nat)
    requires k < |ls| && Opens(ls[k])
  {
    Classify(ls[k]).flag.Yes?
  }

  predicate ThrowsAt(ls: seq<string>, k: nat)
    requires k < |ls| && Opens(ls[k])
  {
    Classify(ls[k]).flag.OutOfRange?
  }

  /** The closed regions of ls from line i on, in order. */
  function Regions(ls: seq<string>, i: nat): seq<Region>
    requires i <= |ls|
    decreases |ls| - i
  {
    var o := Opening(ls, i);
    if o == |ls| || ThrowsAt(ls, o) then []
    else
      var c := Closing(ls, o + 1, NameAt(ls, o));
      if c == |ls| then []
      else [Region(NameAt(ls, o), KeepAt(ls, o), o, c)] + Regions(ls, c + 1)
  }

  /** Some start tag outside all regions breaks off right after its name. */
  predicate Throws(ls: seq<string>, i: nat)
    requires i <= |ls|
    decreases |ls| - i
  {
    var o := Opening(ls, i);
    o < |ls| &&
    (ThrowsAt(ls, o) ||
     (var c := Closing(ls, o + 1, NameAt(ls, o)); c < |ls| && Throws(ls, c + 1)))
  }

  /** The lines from i to j that are no tags. */
  function Body(ls: seq<string>, i: nat, j: nat): string
    requires i <= j <= |ls|
  {
    if i == j then ""
    else Body(ls, i, j - 1) + (if Classify(ls[j - 1]) == Text then ls[j - 1] + "\n" else "")
  }

  ghost predicate InFile(ls: seq<string>, rs: seq<Region>) {
    forall k :: 0 <= k < |rs| ==> rs[k].open < rs[k].close < |ls|
  }

  function RegisterRegions(k: Keeps, ls: seq<string>, rs: seq<Region>): Keeps
    requires InFile(ls, rs)
    decreases |rs|
  {
    if rs == [] then k
    else
      var r := rs[0];
      assert rs[0].open < rs[0].close < |ls|;
      var k' := if r.keep then Register(k, r.name, Body(ls, r.open + 1, r.close)) else k;
      RegisterRegions(k', ls, rs[1..])
  }

  lemma {:induction false} InFileCons(ls: seq<string>, r: Region, rs: seq<Region>)
    requires r.open < r.close < |ls| && InFile(ls, rs)
    ensures InFile(ls, [r] + rs)
  {
  }

  lemma {:induction false} RegionsInFile(ls: seq<string>, i: nat)
    requires i <= |ls|
    ensures InFile(ls, Regions(ls, i))
    decreases |ls| - i
  {
    hide Opens, Closes, ThrowsAt, Opening, Closing, NameAt, KeepAt, InFile;
    var o := Opening(ls, i);
    if o < |ls| && !ThrowsAt(ls, o) {
      var c := Closing(ls, o + 1, NameAt(ls, o));
      if c < |ls| {
        RegionsInFile(ls, c + 1);
        InFileCons(ls, Region(NameAt(ls, o), KeepAt(ls, o), o, c), Regions(ls, c + 1));
      } else {
        NoneInFile(ls);
      }
    } else {
      NoneInFile(ls);
    }
  }

  lemma {:induction false} NoneInFile(ls: seq<string>)
    ensures InFile(ls, [])
  {
  }

  lemma {:induction false} StepFrom(s: Reader, ls: seq<string>, i: nat)
    requires i < |ls|
    ensures StepAll(s, ls[i..]) == StepAll(Step(s, ls[i]), ls[i + 1..])
  {
    hide Step;
    assert ls[i..][1..] == ls[i + 1..];
  }

  /** Outside regions nothing is collected up to the next opening line. */
  lemma {:induction false} SkipsToOpening(s: Reader, ls: seq<string>, i: nat) returns (t: Reader)
    requires s.Reader? && !s.within && !s.keeping && i <= |ls|
    ensures t.Reader? && !t.within && !t.keeping && t.keeps == s.keeps
    ensures StepAll(s, ls[i..]) == StepAll(t, ls[Opening(ls, i)..])
    decreases |ls| - i
  {
    hide Classify, StepAll;
    if i == |ls| || Opens(ls[i]) {
      t := s;
    } else {
      StepFrom(s, ls, i);
      t := SkipsToOpening(Step(s, ls[i]), ls, i + 1);
    }
  }

  /** Inside a region the text lines are collected up to the matching end tag. */
  lemma {:induction false} CollectsToClosing(s: Reader, ls: seq<string>, o: nat, i: nat) returns (t: Reader)
    requires s.Reader? && s.within && o <= i <= |ls| && (s.keeping ==> s.code == Body(ls, o, i))
    ensures var c := Closing(ls, i, s.name);
            && t.Reader? && t == s.(code := t.code, log := t.log) && (s.keeping ==> t.code == Body(ls, o, c))
            && StepAll(s, ls[i..]) == StepAll(t, ls[c..])
    decreases |ls| - i
  {
    hide Classify, StepAll;
    if i == |ls| || Closes(ls[i], s.name) {
      t := s;
    } else {
      StepFrom(s, ls, i);
      var u := Step(s, ls[i]);
      assert u.Reader? && u == s.(code := u.code, log := u.log);
      if s.keeping && Classify(ls[i]) == Text {
        assert s.code + ls[i] + "\n" == Body(ls, o, i) + (ls[i] + "\n");
      }
      t := CollectsToClosing(u, ls, o, i + 1);
    }
  }

  /** One region: from its opening line to behind its end tag. */
  lemma {:induction false} ReadsRegion(s: Reader, ls: seq<string>, o: nat) returns (t: Reader)
    requires s.Reader? && !s.within && !s.keeping && o < |ls| && Opens(ls[o]) && !ThrowsAt(ls, o)
    ensures var n := NameAt(ls, o); var c := Closing(ls, o + 1, n);
            && (c == |ls| ==> StepAll(s, ls[o..]) == t && t.Reader? && t.keeps == s.keeps)
            && (c < |ls| ==>
                  && StepAll(s, ls[o..]) == StepAll(t, ls[c + 1..]) && t.Reader? && !t.within && !t.keeping
                  && t.keeps == if KeepAt(ls, o) then Register(s.keeps, n, Body(ls, o + 1, c)) else s.keeps)
  {
    hide Classify, StepAll, Body;
    StepFrom(s, ls, o);
    var u := Step(s, ls[o]);
    assert Body(ls, o + 1, o + 1) == "" by { EmptyBody(ls, o + 1); }
    t := CollectsToClosing(u, ls, o + 1, o + 1);
    var c := Closing(ls, o + 1, u.name);
    if c == |ls| {
      assert StepAll(t, ls[c..]) == t by { NoMoreLines(t, ls); }
    } else {
      StepFrom(t, ls, c);
      t := Step(t, ls[c]);
    }
  }

  lemma {:induction false} EmptyBody(ls: seq<string>, i: nat)
    requires i <= |ls|
    ensures Body(ls, i, i) == ""
  {
  }

  lemma {:induction false} NoMoreLines(s: Reader, ls: seq<string>)
    ensures StepAll(s, ls[|ls|..]) == s
  {
    hide Step;
  }

  lemma {:induction false} ReadsRegions(s: Reader, ls: seq<string>, i: nat)
    requires s.Reader? && !s.within && !s.keeping && i <= |ls|
    ensures StepAll(s, ls[i..]).Thrown? <==> Throws(ls, i)
    ensures InFile(ls, Regions(ls, i))
    ensures !Throws(ls, i) ==> StepAll(s, ls[i..]).keeps == RegisterRegions(s.keeps, ls, Regions(ls, i))
    decreases |ls| - i
  {
    hide StepAll, Step, Opens, Register, Body, Classify, Opening, Closing;
    RegionsInFile(ls, i);
    var t := SkipsToOpening(s, ls, i);
    var o := Opening(ls, i);
    if o == |ls| {
      NoMoreLines(t, ls);
    } else if ThrowsAt(ls, o) {
      ThrowsThere(t, ls, o);
    } else {
      var n := NameAt(ls, o);
      var c := Closing(ls, o + 1, n);
      var u := ReadsRegion(t, ls, o);
      if c < |ls| {
        ReadsRegions(u, ls, c + 1);
        var first := Region(n, KeepAt(ls, o), o, c);
        assert Regions(ls, i) == [first] + Regions(ls, c + 1);
        assert Regions(ls, i)[1..] == Regions(ls, c + 1);
      }
    }
  }

  lemma {:induction false} ThrowsThere(s: Reader, ls: seq<string>, o: nat)
    requires s.Reader? && !s.within && o < |ls| && Opens(ls[o]) && ThrowsAt(ls, o)
    ensures StepAll(s, ls[o..]).Thrown?
  {
    hide Classify;
    StepFrom(s, ls, o);
    StaysThrown(ls[o + 1..]);
  }

  lemma {:induction false} StaysThrown(ls: seq<string>)
    ensures StepAll(Thrown, ls) == Thrown
    decreases |ls|
  {
    if ls != [] { StaysThrown(ls[1..]); }
  }

  ghost predicate KeptAt(rs: seq<Region>, k: nat, n: string) { k < |rs| && rs[k].keep && rs[k].name == n }

  ghost predicate FirstKeptAt(rs: seq<Region>, k: nat, n: string) {
    KeptAt(rs, k, n) && forall i: nat :: i < k ==> !KeptAt(rs, i, n)
  }

  /** n has code in r exactly if some kept region is named n, and then the code of the first one. */
  ghost predicate KeepsFirst(r: Keeps, ls: seq<string>, rs: seq<Region>, n: string)
    requires InFile(ls, rs)
  {
    && (n in r.codes <==> exists j: nat :: KeptAt(rs, j, n))
    && forall j: nat :: FirstKeptAt(rs, j, n) ==>
         n in r.codes && r.codes[n] == Body(ls, rs[j].open + 1, rs[j].close)
  }

  lemma {:induction false} OldEntriesStay(k: Keeps, ls: seq<string>, rs: seq<Region>, n: string)
    requires InFile(ls, rs) && n in k.codes
    ensures n in RegisterRegions(k, ls, rs).codes && RegisterRegions(k, ls, rs).codes[n] == k.codes[n]
    decreases |rs|
  {
    hide Body;
    if rs != [] {
      var k' := if rs[0].keep then Register(k, rs[0].name, Body(ls, rs[0].open + 1, rs[0].close)) else k;
      OldEntriesStay(k', ls, rs[1..], n);
    }
  }

  lemma {:induction false} KeptBehind(rs: seq<Region>, j: nat, n: string)
    requires rs != []
    ensures KeptAt(rs[1..], j, n) <==> KeptAt(rs, j + 1, n)
  {
  }

  lemma {:induction false} FirstKeptBehind(rs: seq<Region>, j: nat, n: string)
    requires rs != [] && !KeptAt(rs, 0, n) && FirstKeptAt(rs, j, n)
    ensures 0 < j < |rs| && FirstKeptAt(rs[1..], j - 1, n) && rs[1..][j - 1] == rs[j]
  {
    forall i: nat | i < j - 1 ensures !KeptAt(rs[1..], i, n) { KeptBehind(rs, i, n); }
    KeptBehind(rs, j - 1, n);
  }

  lemma {:induction false} FirstRegionTaken(k: Keeps, ls: seq<string>, rs: seq<Region>, n: string)
    requires InFile(ls, rs) && n !in k.codes
    ensures KeepsFirst(RegisterRegions(k, ls, rs), ls, rs, n)
    decreases |rs|
  {
    hide Body;
    if rs == [] {
      assert forall j: nat :: !KeptAt(rs, j, n);
    } else {
      var code := Body(ls, rs[0].open + 1, rs[0].close);
      var k' := if rs[0].keep then Register(k, rs[0].name, code) else k;
      if KeptAt(rs, 0, n) {
        OldEntriesStay(k', ls, rs[1..], n);
        assert forall j: nat :: FirstKeptAt(rs, j, n) ==> j == 0;
      } else {
        hide KeepsFirst, KeptAt, FirstKeptAt;
        FirstRegionTaken(k', ls, rs[1..], n);
        TailKeepsFirst(RegisterRegions(k', ls, rs[1..]), ls, rs, n);
      }
    }
  }

  lemma {:induction false} TailKeepsFirst(r: Keeps, ls: seq<string>, rs: seq<Region>, n: string)
    requires rs != [] && InFile(ls, rs) && !KeptAt(rs, 0, n) && InFile(ls, rs[1..]) && KeepsFirst(r, ls, rs[1..], n)
    ensures KeepsFirst(r, ls, rs, n)
  {
    hide Body, KeptAt, FirstKeptAt;
    if j: nat :| KeptAt(rs, j, n) { KeptBehind(rs, j - 1, n); }
    if j: nat :| KeptAt(rs[1..], j, n) { KeptBehind(rs, j, n); }
    forall j: nat | FirstKeptAt(rs, j, n)
      ensures j < |rs| && n in r.codes && r.codes[n] == Body(ls, rs[j].open + 1, rs[j].close)
    {
      FirstKeptBehind(rs, j, n);
    }
  }

  /**
   What a file keeps: a name is kept exactly when some closed region of that name says
   KEEP=YES, and its code is the non-tag lines of the first such region.
   */
  lemma {:induction false} KeptIsFirstClosedRegion(text: string, n: string)
    ensures ReadText(text).Thrown? <==> Throws(Lines(text), 0)
    ensures InFile(Lines(text), Regions(Lines(text), 0))
    ensures ReadText(text).Reader? ==>
              KeepsFirst(ReadText(text).keeps, Lines(text), Regions(Lines(text), 0), n)
  {
    hide Throws, Regions, StepAll, RegisterRegions, Feed, KeepsFirst, LinesFrom, Finish, InFile;
    var ls := Lines(text);
    FeedIsStepAll(Scan("", INITIAL), text);
    assert ls[0..] == ls;
    ReadsRegions(INITIAL, ls, 0);
    FirstRegionTaken(NOTHING_KEPT, ls, Regions(ls, 0), n);
  }

  // ----- The loop -----

  method ReadJavaFile(javaFile: string)
    returns (threw: bool, keepMap: map<string, string>, keepSequence: seq<string>, log: seq<Warning>)
    ensures threw <==> ReadText(javaFile).Thrown?
    ensures !threw ==> keepMap == ReadText(javaFile).keeps.codes && keepSequence == ReadText(javaFile).keeps.order
                       && log == ReadText(javaFile).log
  {
    hide Step, Feed, Classify, GetKeepTagName;
    threw := false;
    var keepingText, withinTag := false, false;
    var currentName, currentCode := "", "";
    keepMap, keepSequence, log := map[], [], [];
    var pos := 0;
    assert javaFile[0..] == javaFile;
    while pos < |javaFile|
      invariant 0 <= pos <= |javaFile|
      invariant !threw
      invariant Finish(Feed(Scan("", Reader(withinTag, keepingText, currentName, currentCode,
                                            Keeps(keepMap, keepSequence), log)), javaFile[pos..])) == ReadText(javaFile)
      decreases |javaFile| - pos
    {
      ghost var before := Reader(withinTag, keepingText, currentName, currentCode, Keeps(keepMap, keepSequence), log);
      var thisLine := "";
      ghost var start := pos;
      while pos < |javaFile| && javaFile[pos] != '\n'
        invariant start <= pos <= |javaFile| && (pos > start ==> thisLine != "")
        invariant Finish(Feed(Scan(thisLine, before), javaFile[pos..])) == ReadText(javaFile)
      {
        FeedNext(Scan(thisLine, before), javaFile, pos);
        thisLine := thisLine + [javaFile[pos]];
        pos := pos + 1;
      }
      LineRead(Scan(thisLine, before), javaFile, pos);
      if pos < |javaFile| {
        pos := pos + 1;
      }
      threw, withinTag, keepingText, currentName, currentCode, keepMap, keepSequence, log :=
        ReadLine(thisLine, withinTag, keepingText, currentName, currentCode, keepMap, keepSequence, log);
      if threw {
        ThrownToTheEnd(javaFile[pos..]);
        return;
      }
    }
    assert javaFile[pos..] == "";
    assert Feed(Scan("", Reader(withinTag, keepingText, currentName, currentCode, Keeps(keepMap, keepSequence), log)),
        "")
        == Scan("", Reader(withinTag, keepingText, currentName, currentCode, Keeps(keepMap, keepSequence), log)) by {
      NothingFed(Scan("", Reader(withinTag, keepingText, currentName, currentCode, Keeps(keepMap, keepSequence), log)));
    }
  }

  lemma {:induction false} NothingFed(f: Scan)
    ensures Feed(f, "") == f
  {
  }

  lemma {:induction false} FeedNext(f: Scan, text: string, pos: nat)
    requires pos < |text|
    ensures Feed(f, text[pos..]) == Feed(FeedChar(f, text[pos]), text[pos + 1..])
  {
    hide FeedChar;
    assert text[pos..][1..] == text[pos + 1..];
  }

  /** At the end of a line or of the file the line is taken. */
  lemma {:induction false} LineRead(f: Scan, text: string, pos: nat)
    requires pos <= |text| && (pos < |text| ==> text[pos] == '\n') && (pos == |text| ==> f.cur != "")
    ensures var next := if pos < |text| then pos + 1 else pos;
            Finish(Feed(f, text[pos..])) == Finish(Feed(Scan("", Step(f.s, f.cur)), text[next..]))
  {
    hide Step;
    if pos < |text| {
      FeedNext(f, text, pos);
    } else {
      assert text[pos..] == "";
    }
  }

  lemma {:induction false} ThrownToTheEnd(text: string)
    ensures Finish(Feed(Scan("", Thrown), text)) == Thrown
  {
    FeedIsStepAll(Scan("", Thrown), text);
    StaysThrown(LinesFrom("", text));
  }

  /** The body of the loop, for one line. */
  method ReadLine(thisLine: string, within0: bool, keeping0: bool, name0: string, code0: string,
                  map0: map<string, string>, sequence0: seq<string>, log0: seq<Warning>)
    returns (threw: bool, withinTag: bool, keepingText: bool, currentName: string, currentCode: string,
             keepMap: map<string, string>, keepSequence: seq<string>, log: seq<Warning>)
    ensures var after := Step(Reader(within0, keeping0, name0, code0, Keeps(map0, sequence0), log0), thisLine);
            if threw then after == Thrown
            else after == Reader(withinTag, keepingText, currentName, currentCode, Keeps(keepMap, keepSequence), log)
  {
    hide Find, GetKeepTagName;
    threw, withinTag, keepingText, currentName, currentCode := false, within0, keeping0, name0, code0;
    keepMap, keepSequence, log := map0, sequence0, log0;
    var searchPos := Find(thisLine, START_STRING, 0);
    if searchPos.Some? {
      if withinTag {
        log := log + [Nested];
      } else {
        currentCode := "";
        var tag := GetKeepTagName(thisLine, searchPos.value, true);
        if !tag.found { log := log + [BadLine]; }
        if tag.name != "" {
          currentName := tag.name;
          var keepStart := tag.endNamePos + |KEEP_STRING| + 1;
          if keepStart > |thisLine| {
            threw := true;
            return;
          }
          if Substr(thisLine, keepStart, 3) == "YES" {
            keepingText, withinTag := true, true;
          } else if Substr(thisLine, keepStart, 2) == "NO" {
            keepingText, withinTag := false, true;
          } else {
            log := log + [BadLine];
          }
        }
      }
    } else {
      searchPos := Find(thisLine, END_STRING, 0);
      if searchPos.Some? {
        if !withinTag {
          log := log + [Nested];
        } else {
          var tag := GetKeepTagName(thisLine, searchPos.value, false);
          if !tag.found { log := log + [BadLine]; }
          if tag.name != currentName {
            log := log + [Mismatch];
          } else {
            withinTag := false;
            if keepingText {
              keepingText := false;
              if currentName in keepMap {
                log := log + [Repeated];
              } else {
                keepMap := keepMap[currentName := currentCode];
                keepSequence := keepSequence + [currentName];
              }
            }
          }
        }
      } else if keepingText {
        currentCode := currentCode + thisLine + "\n";
      }
    }
  }
}
