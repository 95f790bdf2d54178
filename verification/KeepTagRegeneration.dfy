/** Whole files: what survives one regeneration, and what a second one changes. */
module KeepTagRegeneration {
  import opened KeepTagText
  import opened KeepTagReader
  import opened KeepTagWriter
  import opened KeepTagMerge

  /** The kept regions of a generated file, in file order. */
  function HeadNames(k: Keeps): seq<string> {
    IfKept("HeaderComment", k) + IfKept("package", k) + IfKept("imports", k)
  }

  function FileNames(f: JavaFile, env: Env): seq<string> {
    HeadNames(env.kept) + (LeftOver(env.kept.order, env.generated) + KeptMembers(f.members, env.kept))
  }

  // ----- Reading a whole generated file -----

  lemma {:induction false} HeadEntityNames()
    ensures GoodName("HeaderComment") && GoodName("package") && GoodName("imports")
  {
  }

  /** An entity of the head and the newline behind it. */
  lemma {:induction false} ReadsHeadEntity(f: Scan, name: string, own: string, k: Keeps)
    requires Between(f) && f.cur == "" && GoodName(name) && GoodKeeps(k) && Clean("", own)
    ensures var text := Tagged(name, 0, true, CodeOf(k, name), own) + "\n";
            Reads(f, text, IfKept(name, k), k) && Feed(f, text).cur == ""
  {
    hide Feed, Classify, Tagged, IfKept, RegisterAll, CodeOf, Clean, GoodName, GoodKeeps, OnlyRepeats;
    var text := Tagged(name, 0, true, CodeOf(k, name), own);
    ReadsEntity(f, name, 0, true, own, k);
    ReadsNewlines(Feed(f, text), k);
    ReadsConcat(f, text, "\n", IfKept(name, k), [], k);
    assert IfKept(name, k) + [] == IfKept(name, k);
    FeedConcat(f, text, "\n");
  }

  /** Plain text and then something: the names are those of the second part. */
  lemma {:induction false} ReadsPlainThen(f: Scan, t: string, b: string, names: seq<string>, k: Keeps)
    requires Between(f) && Clean(f.cur, t) && Reads(Scan("", f.s), b, names, k)
    ensures Reads(f, t + b, names, k) && Feed(f, t + b) == Feed(Scan("", f.s), b)
  {
    hide Feed, Clean, Classify, Reads, OnlyRepeats;
    ReadsPlain(f, t, k);
    FeedConcat(f, t, b);
    PlainPrefix(f, t, b, names, k);
  }

  lemma {:induction false} ReadsPackageAndImports(e: Scan, pack: string, imports: string, k: Keeps)
    requires Between(e) && e.cur == "" && GoodKeeps(k) && Clean("", pack) && Clean("", imports)
    ensures var text := PackageAndImportText(pack, imports, k) + "\n";
            Reads(e, text, IfKept("package", k) + IfKept("imports", k), k) && Feed(e, text).cur == ""
  {
    HeadEntityNames();
    hide Feed, Classify, Tagged, IfKept, RegisterAll, CodeOf, Clean, GoodName, GoodKeeps, Reads, Between;
    var t := Tagged("package", 0, true, CodeOf(k, "package"), pack) + "\n";
    var u := Tagged("imports", 0, true, CodeOf(k, "imports"), imports) + "\n";
    ReadsHeadEntity(e, "package", pack, k);
    BetweenAfter(e, t, IfKept("package", k), k);
    ReadsHeadEntity(Feed(e, t), "imports", imports, k);
    ReadsConcat(e, t, u, IfKept("package", k), IfKept("imports", k), k);
    FeedConcat(e, t, u);
    assert PackageAndImportText(pack, imports, k) + "\n" == t + u;
  }

  lemma {:induction false} ReadsLogInfo(a: Scan, banner: string, note: string, k: Keeps)
    requires Between(a) && a.cur == "" && GoodKeeps(k) && Clean("", banner) && Clean("", note)
    ensures var text := LogInfoText(banner, k) + note;
            Reads(a, text, IfKept("HeaderComment", k), k) && Feed(a, text).cur == ""
  {
    HeadEntityNames();
    assert Clean("", "");
    EmptyIsText();
    assert Between(Scan("", a.s));
    hide Feed, Classify, Tagged, IfKept, RegisterAll, CodeOf, Clean, GoodName, GoodKeeps, Reads, Between;
    var t := Tagged("HeaderComment", 0, true, CodeOf(k, "HeaderComment"), "") + "\n";
    ReadsHeadEntity(a, "HeaderComment", "", k);
    BetweenAfter(a, t, IfKept("HeaderComment", k), k);
    ReadsPlain(Feed(a, t), note, k);
    ReadsConcat(a, t, note, IfKept("HeaderComment", k), [], k);
    assert IfKept("HeaderComment", k) + [] == IfKept("HeaderComment", k);
    FeedConcat(a, t, note);
    ReadsPlainThen(a, banner, t + note, IfKept("HeaderComment", k), k);
    assert LogInfoText(banner, k) + note == banner + (t + note);
  }

  lemma {:induction false} HeadSplit(f: JavaFile, k: Keeps)
    ensures HeadText(f, k) == LogInfoText(f.banner, k) + f.note + (PackageAndImportText(f.pack, f.imports, k) + "\n")
    ensures HeadNames(k) == IfKept("HeaderComment", k) + (IfKept("package", k) + IfKept("imports", k))
  {
    hide LogInfoText, PackageAndImportText, IfKept;
  }

  lemma {:induction false} ReadsHead(f: JavaFile, k: Keeps)
    requires GoodFile(f) && GoodKeeps(k)
    ensures Reads(Scan("", INITIAL), HeadText(f, k), HeadNames(k), k)
    ensures Feed(Scan("", INITIAL), HeadText(f, k)).cur == ""
  {
    EmptyIsText();
    var a := Scan("", INITIAL);
    assert Between(a);
    assert Clean("", f.banner) && Clean("", f.note) && Clean("", f.pack) && Clean("", f.imports);
    hide Feed, Classify, IfKept, RegisterAll, CodeOf, Clean, GoodName, GoodKeeps, GoodFile, Reads, Between,
         LogInfoText, PackageAndImportText, HeadNames, HeadText;
    var header := LogInfoText(f.banner, k) + f.note;
    var rest := PackageAndImportText(f.pack, f.imports, k) + "\n";
    ReadsLogInfo(a, f.banner, f.note, k);
    BetweenAfter(a, header, IfKept("HeaderComment", k), k);
    ReadsPackageAndImports(Feed(a, header), f.pack, f.imports, k);
    ReadsConcat(a, header, rest, IfKept("HeaderComment", k), IfKept("package", k) + IfKept("imports", k), k);
    FeedConcat(a, header, rest);
    HeadSplit(f, k);
  }

  /** The top-level class is below level 1 itself, so it has no tags of its own. */
  lemma {:induction false} ClassSplit(f: JavaFile, env: Env)
    ensures ClassText(f.name, f.head, f.members, env, 0, 0) + "\n"
            == "\n\n" + (f.head + " {"
               + (KeptRegions(LeftOver(env.kept.order, env.generated), env.kept)
                  + (MembersText(f.members, env, 1, 2, true) + ("\n" + "}\n" + "\n"))))
  {
    hide KeptRegions, MembersText, LeftOver, CodeOf;
    var body := ClassBody(f.head, f.members, env, 0, 0);
    assert Tagged(f.name, 0, false, "", body) == body;
    assert Spaces(0) == "";
    assert Spaces(0) + f.head + " {" == f.head + " {";
    assert "\n" + Spaces(0) + "}\n" == "\n" + "}\n";
  }

  lemma {:induction false} ReadsClass(s: Scan, f: JavaFile, env: Env)
    requires Between(s) && s.cur == "" && GoodFile(f) && GoodKeeps(env.kept)
    requires forall n :: n in env.kept.order ==> n in env.kept.codes
    ensures var text := ClassText(f.name, f.head, f.members, env, 0, 0) + "\n";
            && Reads(s, text, LeftOver(env.kept.order, env.generated) + KeptMembers(f.members, env.kept), env.kept)
            && Feed(s, text).cur == ""
  {
    var k := env.kept;
    assert GoodMembers(f.members) && '\n' !in f.head && Classify(f.head + " {") == Text;
    LastLinesClean();
    hide Feed, Classify, RegisterAll, CodeOf, Clean, GoodKeeps, GoodFile, Reads, GoodMembers, LeftOver, KeptMembers,
        OnlyRepeats;
    var open := f.head + " {";
    var left := LeftOver(k.order, env.generated);
    var top, mid := KeptRegions(left, k), MembersText(f.members, env, 1, 2, true);
    var close := "\n" + "}\n" + "\n";
    ReadsNewlines(s, k);
    var a := Feed(s, "\n\n");
    EmptyIsText();
    FeedWithin(a, open);
    assert "" + open == open;
    var b := Feed(a, open);
    forall n | n in left ensures n in k.codes { InLeftOver(k.order, env.generated, n); }
    ReadsKeptRegions(b, left, k);
    var c := Feed(b, top);
    BetweenAfter(b, top, left, k);
    ReadsMembers(c, f.members, env, 2, true);
    var d := Feed(c, mid);
    BetweenAfter(c, mid, KeptMembers(f.members, k), k);
    NewlineClean(d.cur, "}\n" + "\n");
    assert "\n" + ("}\n" + "\n") == close;
    ReadsPlain(d, close, k);
    ReadsConcat(c, mid, close, KeptMembers(f.members, k), [], k);
    assert KeptMembers(f.members, k) + [] == KeptMembers(f.members, k);
    ReadsConcat(b, top, mid + close, left, KeptMembers(f.members, k), k);
    PlainFirst(a, b, open, top + (mid + close), left + KeptMembers(f.members, k), k);
    PlainFirst(s, a, "\n\n", open + (top + (mid + close)), left + KeptMembers(f.members, k), k);
    FeedConcat(s, "\n\n", open + (top + (mid + close)));
    FeedConcat(a, open, top + (mid + close));
    FeedConcat(b, top, mid + close);
    FeedConcat(c, mid, close);
    ClassSplit(f, env);
  }

  lemma {:induction false} LastLinesClean()
    ensures Clean("", "}\n" + "\n")
  {
    assert Clean("}", "\n") && Classify("}") == Text by {
      assert "}" + "" == "}";
      CleanLine("}", "");
    }
    EmptyIsText();
    assert Clean("", "\n") by {
      assert "" + "" == "";
      CleanLine("", "");
    }
    CleanOpenLine("", "}", "\n");
    CleanConcat("", "}\n", "\n");
  }

  /** Text that only extends the line under way, or ends it, keeps nothing. */
  lemma {:induction false} PlainFirst(f: Scan, g: Scan, a: string, b: string, names: seq<string>, k: Keeps)
    requires Feed(f, a) == g && f.s == g.s && Reads(g, b, names, k)
    ensures Reads(f, a + b, names, k)
  {
    hide Feed, RegisterAll, Between;
    FeedConcat(f, a, b);
  }

  /** A generated file reads without nested, unmatched or ill-formed tags, and gives back its kept regions. */
  lemma {:induction false} GeneratedFileReads(f: JavaFile, env: Env)
    requires GoodFile(f) && GoodKeeps(env.kept) && forall n :: n in env.kept.order ==> n in env.kept.codes
    ensures var r := ReadText(FileText(f, env));
            Outside(r) && r.keeps == RegisterAll(NOTHING_KEPT, FileNames(f, env), env.kept)
  {
    hide Feed, RegisterAll, CodeOf, Clean, GoodKeeps, GoodFile, GoodMembers, LeftOver, KeptMembers, OnlyRepeats,
         HeadText, HeadNames, Classify, ClassText;
    var a := Scan("", INITIAL);
    var top := HeadText(f, env.kept);
    var bottom := ClassText(f.name, f.head, f.members, env, 0, 0) + "\n";
    ReadsHead(f, env.kept);
    ReadsClass(Feed(a, top), f, env);
    ReadsConcat(a, top, bottom, HeadNames(env.kept),
                LeftOver(env.kept.order, env.generated) + KeptMembers(f.members, env.kept), env.kept);
    assert top + bottom == FileText(f, env);
    FeedConcat(a, top, bottom);
  }

  // ----- Which names those are -----

  lemma {:induction false} InLeftOver(order: seq<string>, generated: set<string>, n: string)
    ensures n in LeftOver(order, generated) <==> n in order && n !in generated
  {
    if order != [] { InLeftOver(order[1..], generated, n); }
  }

  lemma {:induction false} InKeptMembers(ms: seq<Member>, k: Keeps, n: string)
    ensures n in KeptMembers(ms, k) <==> n in Entities(ms) && CodeOf(k, n) != ""
  {
    if ms != [] { InKeptMembers(ms[1..], k, n); }
  }

  lemma {:induction false} InFileNames(f: JavaFile, k: Keeps, n: string)
    requires Names(k.order) == k.codes.Keys
    ensures n in FileNames(f, Env(k, Generated(f))) <==> n in k.codes && (k.codes[n] != "" || n !in Generated(f))
  {
    InLeftOver(k.order, Generated(f), n);
    InKeptMembers(f.members, k, n);
    assert n in k.order <==> n in Names(k.order);
    hide LeftOver, KeptMembers, Entities;
  }

  lemma {:induction false} RegisteredCodes(r: Keeps, names: seq<string>, k: Keeps, n: string)
    ensures var q := RegisterAll(r, names, k);
            && (n in q.codes <==> n in r.codes || n in names)
            && (n in q.codes ==> q.codes[n] == if n in r.codes then r.codes[n] else CodeOf(k, n))
    decreases |names|
  {
    hide CodeOf;
    if names != [] { RegisteredCodes(Register(r, names[0], CodeOf(k, names[0])), names[1..], k, n); }
  }

  /**
   Regeneration loses no kept code. Every kept entity with code is kept by the new file under
   the same code, left-over ones even without code; and the new file's tags are well paired.
   */
  lemma {:induction false} NoKeptCodeIsLost(existing: string, f: JavaFile, n: string)
    requires ReadText(existing).Reader? && GoodFile(f)
    ensures var k := ReadText(existing).keeps; var r := ReadText(FileText(f, Env(k, Generated(f))));
            && r.Reader? && !r.within && OnlyRepeats(r.log)
            && (n in r.keeps.codes <==> n in k.codes && (k.codes[n] != "" || n !in Generated(f)))
            && (n in r.keeps.codes ==> r.keeps.codes[n] == k.codes[n])
  {
    var k := ReadText(existing).keeps;
    FromReader(existing);
    hide ReadText, FileText, FileNames, RegisterAll, GoodFile, GoodKeeps, Generated, OnlyRepeats;
    var env := Env(k, Generated(f));
    GeneratedFileReads(f, env);
    InFileNames(f, k, n);
    RegisteredCodes(NOTHING_KEPT, FileNames(f, env), k, n);
  }

  lemma {:induction false} FromReader(existing: string)
    requires ReadText(existing).Reader?
    ensures var k := ReadText(existing).keeps;
            && GoodKeeps(k) && Names(k.order) == k.codes.Keys && Distinct(k.order)
            && forall n :: n in k.order ==> n in k.codes
  {
    ReadTextOk(existing);
    hide ReadText, Clean, GoodName;
    var k := ReadText(existing).keeps;
    assert forall n :: n in k.order ==> n in Names(k.order);
  }

  // ----- A second regeneration -----

  lemma {:induction false} LeftOverSnoc(order: seq<string>, generated: set<string>, n: string)
    ensures LeftOver(order + [n], generated) == LeftOver(order, generated) + (if n in generated then [] else [n])
  {
    if order == [] {
      assert order + [n] == [n] && [n][1..] == [];
      assert LeftOver([n], generated) == (if n in generated then [] else [n]) + LeftOver([], generated);
    } else {
      assert (order + [n])[1..] == order[1..] + [n];
      LeftOverSnoc(order[1..], generated, n);
    }
  }

  lemma {:induction false} GeneratedAddNothing(r: Keeps, names: seq<string>, k: Keeps, generated: set<string>)
    requires forall n :: n in names ==> n in generated
    ensures LeftOver(RegisterAll(r, names, k).order, generated) == LeftOver(r.order, generated)
    decreases |names|
  {
    hide CodeOf, LeftOver;
    if names != [] {
      LeftOverSnoc(r.order, generated, names[0]);
      GeneratedAddNothing(Register(r, names[0], CodeOf(k, names[0])), names[1..], k, generated);
    }
  }

  lemma {:induction false} LeftOversAdd(r: Keeps, names: seq<string>, k: Keeps, generated: set<string>)
    requires Distinct(names) && forall n :: n in names ==> n !in generated && n !in r.codes
    ensures LeftOver(RegisterAll(r, names, k).order, generated) == LeftOver(r.order, generated) + names
    decreases |names|
  {
    hide CodeOf, LeftOver;
    if names != [] {
      LeftOverSnoc(r.order, generated, names[0]);
      assert forall i :: 0 <= i < |names| - 1 ==> names[1..][i] == names[i + 1];
      LeftOversAdd(Register(r, names[0], CodeOf(k, names[0])), names[1..], k, generated);
      assert [names[0]] + names[1..] == names;
    }
  }

  lemma {:induction false} LeftOverDistinct(order: seq<string>, generated: set<string>)
    requires Distinct(order)
    ensures Distinct(LeftOver(order, generated))
  {
    if order != [] {
      assert forall i :: 0 <= i < |order| - 1 ==> order[1..][i] == order[i + 1];
      LeftOverDistinct(order[1..], generated);
      InLeftOver(order[1..], generated, order[0]);
      assert order[0] !in order[1..];
    }
  }

  /** The left-over entities of the new file are those of the old one, in the same order. */
  lemma {:induction false} SameLeftOver(f: JavaFile, k: Keeps)
    requires Distinct(k.order) && Names(k.order) == k.codes.Keys
    ensures LeftOver(RegisterAll(NOTHING_KEPT, FileNames(f, Env(k, Generated(f))), k).order, Generated(f))
            == LeftOver(k.order, Generated(f))
  {
    var g := Generated(f);
    var left := LeftOver(k.order, g);
    forall n | n in HeadNames(k) ensures n in g {}
    forall n | n in KeptMembers(f.members, k) ensures n in g { InKeptMembers(f.members, k, n); }
    hide Generated, KeptMembers, HeadNames, RegisterAll, LeftOver;
    var head := RegisterAll(NOTHING_KEPT, HeadNames(k), k);
    RegisterAllConcat(NOTHING_KEPT, HeadNames(k), left + KeptMembers(f.members, k), k);
    RegisterAllConcat(head, left, KeptMembers(f.members, k), k);
    GeneratedAddNothing(RegisterAll(head, left, k), KeptMembers(f.members, k), k, g);
    GeneratedAddNothing(NOTHING_KEPT, HeadNames(k), k, g);
    assert LeftOver([], g) == [] by { NothingLeft(g); }
    AddsLeftOver(head, k, HeadNames(k), g);
    assert [] + left == left;
  }

  lemma {:induction false} AddsLeftOver(head: Keeps, k: Keeps, names: seq<string>, g: set<string>)
    requires Distinct(k.order) && head == RegisterAll(NOTHING_KEPT, names, k) && forall n :: n in names ==> n in g
    ensures LeftOver(RegisterAll(head, LeftOver(k.order, g), k).order, g)
            == LeftOver(head.order, g) + LeftOver(k.order, g)
  {
    hide RegisterAll, LeftOver, Distinct;
    var left := LeftOver(k.order, g);
    forall n | n in left ensures n !in g && n !in head.codes {
      InLeftOver(k.order, g, n);
      RegisteredCodes(NOTHING_KEPT, names, k, n);
    }
    LeftOverDistinct(k.order, g);
    LeftOversAdd(head, left, k, g);
  }

  lemma {:induction false} NothingLeft(g: set<string>)
    ensures LeftOver([], g) == []
  {
  }

  /** The writer looks at the kept entities only through CodeOf and the left-over list. */
  ghost predicate SameCode(a: Keeps, b: Keeps) { forall n :: CodeOf(a, n) == CodeOf(b, n) }

  lemma {:induction false} SameRegions(names: seq<string>, a: Keeps, b: Keeps)
    requires SameCode(a, b)
    ensures KeptRegions(names, a) == KeptRegions(names, b)
  {
    hide CodeOf, StartKeepTag, EndKeepTag;
    if names != [] { SameRegions(names[1..], a, b); }
  }

  lemma {:induction false} SameMembers(ms: seq<Member>, a: Env, b: Env, level: int, indent: int, first: bool)
    requires SameCode(a.kept, b.kept) && level >= 1
    ensures MembersText(ms, a, level, indent, first) == MembersText(ms, b, level, indent, first)
    decreases ms, 0
  {
    hide MemberText, SameCode;
    if ms != [] {
      SameMember(ms[0], a, b, level, indent, first);
      SameMembers(ms[1..], a, b, level, indent, ms[0].Inner?);
    }
  }

  lemma {:induction false} SameMember(m: Member, a: Env, b: Env, level: int, indent: int, first: bool)
    requires SameCode(a.kept, b.kept) && level >= 1
    ensures MemberText(m, a, level, indent, first) == MemberText(m, b, level, indent, first)
    decreases m, 0
  {
    hide CodeOf, Tagged, ClassBody;
    assert CodeOf(a.kept, m.name) == CodeOf(b.kept, m.name);
    match m
    case Field(_, _) =>
    case Method(_, _) =>
    case Inner(_, head, members) => SameBody(head, members, a, b, level, indent);
  }

  lemma {:induction false} SameBody(head: string, ms: seq<Member>, a: Env, b: Env, level: int, indent: int)
    requires SameCode(a.kept, b.kept) && level >= 0
    requires level == 0 ==> LeftOver(a.kept.order, a.generated) == LeftOver(b.kept.order, b.generated)
    ensures ClassBody(head, ms, a, level, indent) == ClassBody(head, ms, b, level, indent)
    decreases ms, 1
  {
    hide CodeOf, LeftOver, SameCode, KeptRegions, MembersText;
    SameMembers(ms, a, b, level + 1, indent + 2, true);
    if level == 0 { SameRegions(LeftOver(a.kept.order, a.generated), a.kept, b.kept); }
  }

  lemma {:induction false} SameFile(f: JavaFile, a: Env, b: Env)
    requires SameCode(a.kept, b.kept) && a.generated == b.generated
    requires LeftOver(a.kept.order, a.generated) == LeftOver(b.kept.order, b.generated)
    ensures FileText(f, a) == FileText(f, b)
  {
    hide CodeOf, Tagged, ClassBody, LeftOver;
    SameBody(f.head, f.members, a, b, 0, 0);
  }

  /**
   Regenerating from the regenerated file changes nothing but the banner: under any banner the
   two generations from the old and from the new file are the same text.
   */
  lemma {:induction false} SecondRegenerationIsIdentical(existing: string, f: JavaFile, banner: string)
    requires ReadText(existing).Reader? && GoodFile(f)
    ensures var g := Generated(f); var k := ReadText(existing).keeps;
            var again := ReadText(FileText(f, Env(k, g)));
            && again.Reader?
            && FileText(f.(banner := banner), Env(again.keeps, g)) == FileText(f.(banner := banner), Env(k, g))
  {
    var k := ReadText(existing).keeps;
    FromReader(existing);
    var g := Generated(f);
    hide ReadText, FileText, FileNames, RegisterAll, GoodFile, GoodKeeps, LeftOver, Generated, OnlyRepeats;
    GeneratedFileReads(f, Env(k, g));
    var again := ReadText(FileText(f, Env(k, g))).keeps;
    SameLeftOver(f, k);
    forall n ensures CodeOf(again, n) == CodeOf(k, n) {
      NoKeptCodeIsLost(existing, f, n);
      GeneratedHasCodeOrNone(k, again, n, g);
    }
    SameFile(f.(banner := banner), Env(again, g), Env(k, g));
  }

  lemma {:induction false} GeneratedHasCodeOrNone(k: Keeps, again: Keeps, n: string, g: set<string>)
    requires n in again.codes <==> n in k.codes && (k.codes[n] != "" || n !in g)
    requires n in again.codes ==> again.codes[n] == k.codes[n]
    requires n in k.codes && n !in g ==> n in again.codes
    ensures CodeOf(again, n) == CodeOf(k, n)
  {
  }
}
