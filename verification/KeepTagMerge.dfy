/**
 Reading what the writer writes. A file generated from kept entities gives them back:
 no kept code is lost, tags are paired and never nested, and generating once more
 changes nothing but the banner.
 */
module KeepTagMerge {
  import opened KeepTagText
  import opened KeepTagReader
  import opened KeepTagWriter

  // ----- What the generator may assume of its own text -----

  /** No line of freshly generated text holds a tag, and tag names have no spaces. */
  ghost predicate GoodMember(m: Member)
    decreases m
  {
    match m
    case Field(name, text) => GoodName(name) && Clean("", text + "\n")
    case Method(name, text) => GoodName(name) && Clean("", text + "\n")
    case Inner(name, head, members) =>
      GoodName(name) && '\n' !in head && Classify(head + " {") == Text && forall x :: x in members ==> GoodMember(x)
  }

  ghost predicate GoodMembers(ms: seq<Member>) { forall x :: x in ms ==> GoodMember(x) }

  ghost predicate GoodFile(f: JavaFile) {
    && Clean("", f.banner) && Clean("", f.note) && Clean("", f.pack) && Clean("", f.imports)
    && '\n' !in f.head && Classify(f.head + " {") == Text && GoodMembers(f.members)
  }

  // ----- The reader between entities -----

  ghost predicate OnlyRepeats(log: seq<Warning>) { forall w :: w in log ==> w == Repeated }

  ghost predicate Outside(s: Reader) { s.Reader? && !s.within && !s.keeping && OnlyRepeats(s.log) }

  /** Outside, with a tag-free line under way. */
  ghost predicate Between(f: Scan) { Outside(f.s) && Classify(f.cur) == Text }

  lemma {:induction false} ReadsClean(f: Scan, t: string)
    requires Outside(f.s) && Clean(f.cur, t)
    ensures Feed(f, t) == Scan("", f.s)
  {
    FeedClean(f, t);
  }

  lemma {:induction false} EmptyIsText()
    ensures Classify("") == Text
  {
  }

  lemma {:induction false} ReadsNewline(f: Scan)
    requires Between(f)
    ensures Feed(f, "\n") == Scan("", f.s)
  {
    assert "" + "\n" == "\n" && f.cur + "" == f.cur;
    CleanLine(f.cur, "");
    ReadsClean(f, "\n");
  }

  /** A region read from outside: kept once, and nothing logged but a repetition. */
  lemma {:induction false} ReadsRegionText(s: Reader, name: string, keep: bool, code: string)
    requires Outside(s) && GoodName(name) && Clean("", code)
    ensures var g := Feed(Scan("", s), StartTagLine(name, keep) + "\n" + code + (EndTagLine(name) + "\n"));
            g.cur == "" && Outside(g.s) && g.s.keeps == if keep then Register(s.keeps, name, code) else s.keeps
  {
    hide StartTagLine, EndTagLine, Classify, Register, Feed;
    var open := StartTagLine(name, keep);
    var close := EndTagLine(name);
    StartTagReads(name, keep);
    EndTagReads(name);
    TagLinesHaveNoNewline(name, keep);
    FeedConcat(Scan("", s), open + "\n" + code, close + "\n");
    FeedConcat(Scan("", s), open + "\n", code);
    assert "" + open == open && "" + close == close;
    FeedLine(Scan("", s), open);
    var u := Step(s, open);
    assert u == s.(code := "", name := name, keeping := keep, within := true);
    FeedClean(Scan("", u), code);
    var v := u.(code := if keep then code else "");
    assert "" + "" + code == code;
    FeedLine(Scan("", v), close);
    ClosesRegion(v, close);
  }

  lemma {:induction false} ClosesRegion(v: Reader, close: string)
    requires v.Reader? && v.within && OnlyRepeats(v.log) && Classify(close) == EndTag(true, v.name)
    ensures var w := Step(v, close);
            Outside(w) && w.keeps == if v.keeping then Register(v.keeps, v.name, v.code) else v.keeps
  {
    hide Classify;
  }

  lemma {:induction false} TagLinesHaveNoNewline(name: string, keep: bool)
    requires GoodName(name)
    ensures '\n' !in StartTagLine(name, keep) && '\n' !in EndTagLine(name)
  {
  }

  // ----- Entities -----

  /** Registering entities under the code they have in k. */
  function RegisterAll(r: Keeps, names: seq<string>, k: Keeps): Keeps
    decreases |names|
  {
    if names == [] then r else RegisterAll(Register(r, names[0], CodeOf(k, names[0])), names[1..], k)
  }

  /** The name, if it has kept code. */
  function IfKept(name: string, k: Keeps): seq<string> {
    if CodeOf(k, name) != "" then [name] else []
  }

  function KeptMembers(ms: seq<Member>, k: Keeps): seq<string> {
    if ms == [] then [] else IfKept(ms[0].name, k) + KeptMembers(ms[1..], k)
  }

  lemma {:induction false} RegisterAllConcat(r: Keeps, a: seq<string>, b: seq<string>, k: Keeps)
    ensures RegisterAll(r, a + b, k) == RegisterAll(RegisterAll(r, a, k), b, k)
    decreases |a|
  {
    hide Register, CodeOf;
    if a == [] {
      assert a + b == b;
    } else {
      assert (a + b)[1..] == a[1..] + b;
      RegisterAllConcat(Register(r, a[0], CodeOf(k, a[0])), a[1..], b, k);
    }
  }

  lemma {:induction false} RegisterIfKept(r: Keeps, name: string, k: Keeps)
    ensures RegisterAll(r, IfKept(name, k), k)
            == if CodeOf(k, name) != "" then Register(r, name, CodeOf(k, name)) else r
  {
    hide Register, CodeOf;
    if CodeOf(k, name) != "" {
      var one := Register(r, name, CodeOf(k, name));
      assert RegisterAll(r, [name], k) == RegisterAll(one, [], k);
    }
  }

  ghost predicate GoodKeeps(k: Keeps) { forall n :: n in k.codes ==> GoodName(n) && Clean("", k.codes[n]) }

  lemma {:induction false} CodeIsClean(k: Keeps, n: string)
    requires GoodKeeps(k)
    ensures Clean("", CodeOf(k, n))
  {
  }

  /** A tagged entity leaves the reader outside, having kept it if there was code to keep. */
  lemma {:induction false} ReadsTagged(s: Reader, name: string, level: int, override: bool, own: string, k: Keeps)
    requires Outside(s) && GoodName(name) && (level == 1 || override) && GoodKeeps(k) && Clean("", own)
    ensures var g := Feed(Scan("", s), Tagged(name, level, override, CodeOf(k, name), own));
            g.cur == "" && Outside(g.s) && g.s.keeps == RegisterAll(s.keeps, IfKept(name, k), k)
  {
    hide Feed, StartTagLine, EndTagLine, Register, Classify, RegisterAll, IfKept, OnlyRepeats, Clean, GoodName;
    CodeIsClean(k, name);
    RegisterIfKept(s.keeps, name, k);
    var existing := CodeOf(k, name);
    ReadsRegionText(s, name, existing != "", if existing != "" then existing else own);
  }

  // ----- Text of nested classes -----

  lemma {:induction false} CleanOpenLine(cur: string, a: string, t: string)
    requires '\n' !in a && Clean(cur + a, t)
    ensures Clean(cur, a + t)
    decreases |a|
  {
    hide Classify;
    if a == "" {
      assert cur + a == cur && a + t == t;
    } else {
      assert a[0] in a && forall c :: c in a[1..] ==> c in a;
      assert cur + a == cur + [a[0]] + a[1..];
      CleanOpenLine(cur + [a[0]], a[1..], t);
      assert (a + t)[1..] == a[1..] + t;
    }
  }

  lemma {:induction false} IndentedClean(n: int, cur: string, t: string)
    requires Clean(cur, t) && t != ""
    ensures Clean(Spaces(n) + cur, t)
    decreases |t|
  {
    hide Classify;
    if t[0] == '\n' {
      IndentedText(n, cur);
    } else {
      assert Spaces(n) + (cur + [t[0]]) == Spaces(n) + cur + [t[0]];
      IndentedClean(n, cur + [t[0]], t[1..]);
    }
  }

  lemma {:induction false} OwnTextClean(n: int, text: string)
    requires Clean("", text + "\n")
    ensures Clean("", Spaces(n) + text + "\n")
  {
    hide Classify, Clean;
    IndentedClean(n, "", text + "\n");
    assert Spaces(n) + "" == Spaces(n) && "" + Spaces(n) == Spaces(n);
    SpacesHaveNoNewline(n);
    CleanOpenLine("", Spaces(n), text + "\n");
    assert Spaces(n) + (text + "\n") == Spaces(n) + text + "\n";
  }

  lemma {:induction false} SpacesHaveNoNewline(n: int)
    ensures '\n' !in Spaces(n)
  {
  }

  /** Class heads and closing braces are tag-free lines. */
  lemma {:induction false} ClassOpenIsText(indent: int, head: string)
    requires '\n' !in head && Classify(head + " {") == Text
    ensures Classify(Spaces(indent) + head + " {") == Text && '\n' !in Spaces(indent) + head + " {"
  {
    hide Classify;
    IndentedText(indent, head + " {");
    SpacesHaveNoNewline(indent);
    assert Spaces(indent) + (head + " {") == Spaces(indent) + head + " {";
  }

  lemma {:induction false} ClassCloseClean(indent: int)
    ensures Clean("", Spaces(indent) + "}\n")
  {
    hide Clean;
    assert Classify("}") == Text;
    hide Classify;
    IndentedText(indent, "}");
    SpacesHaveNoNewline(indent);
    assert "" + (Spaces(indent) + "}") == Spaces(indent) + "}";
    CleanLine("", Spaces(indent) + "}");
    assert Spaces(indent) + "}" + "\n" == Spaces(indent) + "}\n";
  }

  lemma {:induction false} NewlineClean(cur: string, t: string)
    requires Classify(cur) == Text && Clean("", t)
    ensures Clean(cur, "\n" + t)
  {
    hide Classify;
    assert ("\n" + t)[1..] == t;
  }

  /** Below the first level there are no tags at all. */
  lemma {:induction false} InnerTextClean(ms: seq<Member>, env: Env, level: int, indent: int, first: bool, cur: string)
    requires level >= 2 && Classify(cur) == Text && GoodMembers(ms)
    ensures Clean(cur, MembersText(ms, env, level, indent, first) + "\n")
    decreases ms, 0
  {
    hide Classify, Clean, MemberText, GoodMember;
    if ms == [] {
      assert cur + "" == cur && "" + "\n" == "\n";
      CleanLine(cur, "");
    } else {
      var head := MemberText(ms[0], env, level, indent, first);
      var tail := MembersText(ms[1..], env, level, indent, ms[0].Inner?) + "\n";
      InnerMemberClean(ms[0], env, level, indent, first, cur);
      EmptyIsText();
      InnerTextClean(ms[1..], env, level, indent, ms[0].Inner?, "");
      CleanConcat(cur, head, tail);
      assert head + tail == MembersText(ms, env, level, indent, first) + "\n";
    }
  }

  lemma {:induction false} InnerMemberClean(m: Member, env: Env, level: int, indent: int, first: bool, cur: string)
    requires level >= 2 && Classify(cur) == Text && GoodMember(m)
    ensures Clean(cur, MemberText(m, env, level, indent, first))
    decreases m, 0
  {
    hide Classify, Clean, ClassText, ClassBody;
    match m
    case Field(name, text) =>
      OwnTextClean(indent, text);
      UntaggedClean(name, level, Spaces(indent) + text + "\n", cur);
    case Method(name, text) =>
      OwnTextClean(indent, text);
      UntaggedClean(name, level, Spaces(indent) + text + "\n", cur);
    case Inner(name, head, members) =>
      ClassTextClean(name, head, members, env, level, indent);
      var text := ClassText(name, head, members, env, level, indent);
      NewlineClean(cur, "\n" + ClassBody(head, members, env, level, indent));
      NewlineClean(cur, text);
      assert "" + text == text;
  }

  lemma {:induction false} UntaggedClean(name: string, level: int, own: string, cur: string)
    requires level >= 2 && Classify(cur) == Text && Clean("", own)
    ensures var t := Tagged(name, level, false, "", own);
            Clean(cur, "\n" + t) && Clean(cur, "" + "\n" + t) && Clean(cur, "\n" + "\n" + t)
  {
    hide Classify, Clean;
    EmptyIsText();
    var t := Tagged(name, level, false, "", own);
    assert t == own;
    NewlineClean(cur, own);
    NewlineClean("", own);
    NewlineClean(cur, "\n" + own);
    assert "\n" + ("\n" + own) == "\n" + "\n" + own && "" + "\n" + own == "\n" + own;
  }

  lemma {:induction false} ClassTextClean(name: string, head: string, ms: seq<Member>, env: Env, level: int,
                                          indent: int)
    requires level >= 2 && '\n' !in head && Classify(head + " {") == Text && GoodMembers(ms)
    ensures ClassText(name, head, ms, env, level, indent) == "\n" + ("\n" + ClassBody(head, ms, env, level, indent))
    ensures Clean("", "\n" + ClassBody(head, ms, env, level, indent))
    ensures Clean("", ClassText(name, head, ms, env, level, indent))
    decreases ms, 2
  {
    hide Classify, Clean, MembersText, KeptRegions, LeftOver, GoodMembers;
    var body := ClassBody(head, ms, env, level, indent);
    assert Tagged(name, level, false, "", body) == body;
    assert ClassText(name, head, ms, env, level, indent) == "\n\n" + body;
    assert "\n\n" + body == "\n" + ("\n" + body);
    ClassBodyClean(head, ms, env, level, indent);
    EmptyIsText();
    NewlineClean("", body);
    NewlineClean("", "\n" + body);
  }

  lemma {:induction false} ClassBodyClean(head: string, ms: seq<Member>, env: Env, level: int, indent: int)
    requires level >= 1 && '\n' !in head && Classify(head + " {") == Text && GoodMembers(ms)
    ensures Clean("", ClassBody(head, ms, env, level, indent))
    decreases ms, 1
  {
    hide Classify, Clean, MembersText, GoodMembers;
    var open := ClassOpen(head, indent);
    var inner := MembersText(ms, env, level + 1, indent + 2, true);
    var close := Spaces(indent) + "}\n";
    ClassOpenIsText(indent, head);
    InnerTextClean(ms, env, level + 1, indent + 2, true, open);
    assert "" + open == open;
    CleanOpenLine("", open, inner + "\n");
    ClassCloseClean(indent);
    CleanConcat("", open + (inner + "\n"), close);
    assert open + (inner + "\n") + close == open + "" + inner + ("\n" + close);
    assert "\n" + Spaces(indent) + "}\n" == "\n" + close;
  }

  // ----- The members of the top-level class -----

  ghost predicate Reads(f: Scan, text: string, names: seq<string>, k: Keeps) {
    f.s.Reader? && Between(Feed(f, text)) && Feed(f, text).s.keeps == RegisterAll(f.s.keeps, names, k)
  }

  lemma {:induction false} ReadsConcat(f: Scan, a: string, b: string, ns: seq<string>, ms: seq<string>, k: Keeps)
    requires Reads(f, a, ns, k) && Reads(Feed(f, a), b, ms, k)
    ensures Reads(f, a + b, ns + ms, k)
  {
    hide Classify, Feed, RegisterAll, OnlyRepeats;
    FeedConcat(f, a, b);
    RegisterAllConcat(f.s.keeps, ns, ms, k);
  }

  lemma {:induction false} ReadsPlain(f: Scan, t: string, k: Keeps)
    requires Between(f) && Clean(f.cur, t)
    ensures Reads(f, t, [], k) && Feed(f, t) == Scan("", f.s)
  {
    hide Classify, Clean, Feed;
    ReadsClean(f, t);
    EmptyIsText();
  }

  lemma {:induction false} ReadsNewlines(f: Scan, k: Keeps)
    requires Between(f)
    ensures Reads(f, "\n", [], k) && Feed(f, "\n") == Scan("", f.s)
    ensures Reads(f, "\n\n", [], k) && Feed(f, "\n\n") == Scan("", f.s)
  {
    hide Classify, Feed;
    ReadsNewline(f);
    EmptyIsText();
    ReadsNewline(Scan("", f.s));
    FeedConcat(f, "\n", "\n");
    assert "\n" + "\n" == "\n\n";
  }

  lemma {:induction false} ReadsEntity(f: Scan, name: string, level: int, override: bool, own: string, k: Keeps)
    requires Between(f) && f.cur == "" && GoodName(name) && (level == 1 || override) && GoodKeeps(k) && Clean("", own)
    ensures Reads(f, Tagged(name, level, override, CodeOf(k, name), own), IfKept(name, k), k)
    ensures Feed(f, Tagged(name, level, override, CodeOf(k, name), own)).cur == ""
  {
    hide Classify, Clean, Feed, Tagged, IfKept, GoodName, RegisterAll, CodeOf, GoodKeeps;
    ReadsTagged(f.s, name, level, override, own, k);
    EmptyIsText();
  }

  /** The newlines before a member of the top-level class. */
  function Lead(m: Member, first: bool): string {
    if m.Method? then "\n" else (if first then "\n" else "") + (if m.Field? then "\n" else "\n\n")
  }

  /** The member as freshly generated. */
  function OwnText(m: Member, env: Env, indent: int): string {
    match m
    case Field(_, text) => Spaces(indent) + text + "\n"
    case Method(_, text) => Spaces(indent) + text + "\n"
    case Inner(_, head, members) => ClassBody(head, members, env, 1, indent)
  }

  lemma {:induction false} ReadsMember(f: Scan, m: Member, env: Env, indent: int, first: bool)
    requires Between(f) && GoodMember(m) && GoodKeeps(env.kept)
    ensures Reads(f, MemberText(m, env, 1, indent, first), IfKept(m.name, env.kept), env.kept)
  {
    hide Classify, Clean, Feed, Tagged, IfKept, GoodKeeps, RegisterAll, Reads, CodeOf, GoodName;
    var k := env.kept;
    var own := OwnText(m, env, indent);
    OwnIsClean(m, env, indent);
    EmptyIsText();
    ReadsEntity(Scan("", f.s), m.name, 1, false, own, k);
    MemberSplit(m, env, indent, first);
    ReadsLead(f, m, first, k);
    PlainPrefix(f, Lead(m, first), Tagged(m.name, 1, false, CodeOf(k, m.name), own), IfKept(m.name, k), k);
  }

  lemma {:induction false} ReadsLead(f: Scan, m: Member, first: bool, k: Keeps)
    requires Between(f)
    ensures f.s.Reader? && Feed(f, Lead(m, first)) == Scan("", f.s)
  {
    hide Classify, Feed;
    EmptyIsText();
    ReadsNewlines(f, k);
    ReadsNewlines(Scan("", f.s), k);
    FeedConcat(f, "\n", "\n");
    FeedConcat(f, "\n", "\n\n");
    assert "" + "\n" == "\n" && "" + "\n\n" == "\n\n";
  }

  lemma {:induction false} PlainPrefix(f: Scan, pre: string, text: string, names: seq<string>, k: Keeps)
    requires Feed(f, pre) == Scan("", f.s) && Reads(Scan("", f.s), text, names, k)
    ensures Reads(f, pre + text, names, k)
  {
    hide Feed, RegisterAll, Between;
    FeedConcat(f, pre, text);
  }

  lemma {:induction false} MemberSplit(m: Member, env: Env, indent: int, first: bool)
    ensures MemberText(m, env, 1, indent, first)
            == Lead(m, first) + Tagged(m.name, 1, false, CodeOf(env.kept, m.name), OwnText(m, env, indent))
  {
    hide Tagged, ClassBody, Spaces, CodeOf;
  }

  lemma {:induction false} OwnIsClean(m: Member, env: Env, indent: int)
    requires GoodMember(m)
    ensures GoodName(m.name) && Clean("", OwnText(m, env, indent))
  {
    hide Clean, Classify, ClassBody, GoodName;
    match m
    case Field(_, text) => OwnTextClean(indent, text);
    case Method(_, text) => OwnTextClean(indent, text);
    case Inner(_, head, members) => ClassBodyClean(head, members, env, 1, indent);
  }

  lemma {:induction false} ReadsMembers(f: Scan, ms: seq<Member>, env: Env, indent: int, first: bool)
    requires Between(f) && GoodMembers(ms) && GoodKeeps(env.kept)
    ensures Reads(f, MembersText(ms, env, 1, indent, first), KeptMembers(ms, env.kept), env.kept)
    decreases |ms|
  {
    hide Classify, MemberText, GoodMember, GoodKeeps, IfKept, RegisterAll;
    if ms == [] {
      assert Feed(f, "") == f;
      assert RegisterAll(f.s.keeps, [], env.kept) == f.s.keeps by { NothingRegistered(f.s.keeps, env.kept); }
    } else {
      hide Feed, Between;
      var text := MemberText(ms[0], env, 1, indent, first);
      ReadsMember(f, ms[0], env, indent, first);
      ReadsMembers(Feed(f, text), ms[1..], env, indent, ms[0].Inner?);
      ReadsConcat(f, text, MembersText(ms[1..], env, 1, indent, ms[0].Inner?),
                  IfKept(ms[0].name, env.kept), KeptMembers(ms[1..], env.kept), env.kept);
    }
  }

  lemma {:induction false} NothingRegistered(r: Keeps, k: Keeps)
    ensures RegisterAll(r, [], k) == r
  {
  }

  lemma {:induction false} ReadsKeptRegions(f: Scan, names: seq<string>, k: Keeps)
    requires Between(f) && GoodKeeps(k) && forall n :: n in names ==> n in k.codes
    ensures Reads(f, KeptRegions(names, k), names, k)
    decreases |names|
  {
    hide Classify, GoodKeeps, RegisterAll, StartTagLine, EndTagLine, GoodName, Clean;
    if names == [] {
      assert Feed(f, "") == f;
      NothingRegistered(f.s.keeps, k);
    } else {
      hide Feed;
      var n := names[0];
      ReadsNewline(f);
      var code := CodeOf(k, n);
      assert GoodName(n) && Clean("", code) by { GoodEntry(k, n); }
      var region := StartTagLine(n, true) + "\n" + code + (EndTagLine(n) + "\n");
      ReadsRegionText(f.s, n, true, code);
      EmptyIsText();
      OneRegistered(f.s.keeps, n, k);
      assert Reads(Scan("", f.s), region, [n], k);
      PlainPrefix(f, "\n", region, [n], k);
      hide Between, Reads;
      ReadsKeptRegions(Feed(f, "\n" + region), names[1..], k) by { BetweenAfter(f, "\n" + region, [n], k); }
      ReadsConcat(f, "\n" + region, KeptRegions(names[1..], k), [n], names[1..], k);
      assert names == [n] + names[1..];
      assert KeptRegions(names, k) == "\n" + region + KeptRegions(names[1..], k);
    }
  }

  lemma {:induction false} BetweenAfter(f: Scan, text: string, names: seq<string>, k: Keeps)
    requires Reads(f, text, names, k)
    ensures Between(Feed(f, text))
  {
  }

  lemma {:induction false} GoodEntry(k: Keeps, n: string)
    requires GoodKeeps(k) && n in k.codes
    ensures GoodName(n) && Clean("", CodeOf(k, n))
  {
    hide GoodName, Clean;
  }

  lemma {:induction false} OneRegistered(r: Keeps, n: string, k: Keeps)
    ensures RegisterAll(r, [n], k) == Register(r, n, CodeOf(k, n))
  {
    hide Register, CodeOf;
    NothingRegistered(Register(r, n, CodeOf(k, n)), k);
  }
}
