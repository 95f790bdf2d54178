/**
 What a generated file holds, read back without the reader's state machine: its regions in
 order, kept or not, with the text between their tags, and the lines outside of them. Fresh
 code reaches the file wherever no code was kept.
 */
module KeepTagLayout {
  import opened KeepTagText
  import opened KeepTagReader
  import opened KeepTagWriter
  import opened KeepTagMerge
  import opened KeepTagRegeneration

  /** A closed region: its name, its keep word, and the text between its tags. */
  datatype Entity = Entity(name: string, keep: bool, body: string)

  /** The regions of a file, in order. */
  function EntitiesOf(ls: seq<string>, rs: seq<Region>): (es: seq<Entity>)
    requires InFile(ls, rs)
    ensures |es| == |rs|
    ensures forall i :: 0 <= i < |rs| ==> es[i] == Entity(rs[i].name, rs[i].keep, Body(ls, rs[i].open + 1, rs[i].close))
  {
    seq(|rs|, i requires 0 <= i < |rs| => Entity(rs[i].name, rs[i].keep, Body(ls, rs[i].open + 1, rs[i].close)))
  }

  /** outside: the lines that belong to no region, without the empty ones. */
  datatype Layout = Layout(outside: seq<string>, entities: seq<Entity>)

  function NonEmpty(ls: seq<string>): seq<string> {
    if ls == [] then [] else (if ls[0] == "" then [] else [ls[0]]) + NonEmpty(ls[1..])
  }

  /** Line by line; what follows a start tag that throws or is never closed does not count. */
  function LayoutOf(ls: seq<string>): Layout
    decreases |ls|
  {
    if ls == [] then Layout([], [])
    else if !Opens(ls[0]) then
      var rest := LayoutOf(ls[1..]);
      Layout(NonEmpty([ls[0]]) + rest.outside, rest.entities)
    else if ThrowsAt(ls, 0) || Closing(ls, 1, NameAt(ls, 0)) == |ls| then Layout([], [])
    else
      var c := Closing(ls, 1, NameAt(ls, 0));
      var rest := LayoutOf(ls[c + 1..]);
      Layout(rest.outside, [Entity(NameAt(ls, 0), KeepAt(ls, 0), Body(ls, 1, c))] + rest.entities)
  }

  // ----- The layout's entities are the regions that the reader sees -----

  lemma {:induction false} ClosingShift(ls: seq<string>, i: nat, j: nat, name: string)
    requires i + j <= |ls|
    ensures Closing(ls, i + j, name) == i + Closing(ls[i..], j, name)
    decreases |ls| - i - j
  {
    hide Closes;
    if i + j < |ls| {
      assert ls[i..][j] == ls[i + j];
      if !Closes(ls[i + j], name) { ClosingShift(ls, i, j + 1, name); }
    }
  }

  lemma {:induction false} BodyShift(ls: seq<string>, i: nat, a: nat, b: nat)
    requires a <= b && i + b <= |ls|
    ensures Body(ls[i..], a, b) == Body(ls, i + a, i + b)
    decreases b - a
  {
    hide Classify;
    if a < b {
      BodyShift(ls, i, a, b - 1);
      assert ls[i..][b - 1] == ls[i + b - 1];
    }
  }

  lemma {:induction false} OpeningSkip(ls: seq<string>, i: nat)
    requires i < |ls| && !Opens(ls[i])
    ensures Opening(ls, i) == Opening(ls, i + 1)
  {
    hide Opens;
  }

  lemma {:induction false} OpeningHere(ls: seq<string>, i: nat)
    requires i < |ls| && Opens(ls[i])
    ensures Opening(ls, i) == i
  {
    hide Opens;
  }

  lemma {:induction false} RegionsSkip(ls: seq<string>, i: nat)
    requires i < |ls| && !Opens(ls[i])
    ensures Regions(ls, i) == Regions(ls, i + 1)
  {
    hide Opens, Closes, Opening, Closing, ThrowsAt, KeepAt, NameAt;
    OpeningSkip(ls, i);
  }

  lemma {:induction false} RegionsHere(ls: seq<string>, i: nat)
    requires i < |ls| && Opens(ls[i])
    ensures var c := Closing(ls, i + 1, NameAt(ls, i));
            Regions(ls, i) == if ThrowsAt(ls, i) || c == |ls| then []
                              else [Region(NameAt(ls, i), KeepAt(ls, i), i, c)] + Regions(ls, c + 1)
  {
    hide Opens, Closes, Opening, Closing, ThrowsAt, KeepAt, NameAt;
    OpeningHere(ls, i);
  }

  lemma {:induction false} EntitiesCons(ls: seq<string>, r: Region, rs: seq<Region>)
    requires InFile(ls, [r] + rs) && InFile(ls, rs) && r.open < r.close < |ls|
    ensures EntitiesOf(ls, [r] + rs) == [Entity(r.name, r.keep, Body(ls, r.open + 1, r.close))] + EntitiesOf(ls, rs)
  {
    hide Body, EntitiesOf, InFile;
    var all, e := [r] + rs, Entity(r.name, r.keep, Body(ls, r.open + 1, r.close));
    forall j | 0 <= j < |all| ensures EntitiesOf(ls, all)[j] == ([e] + EntitiesOf(ls, rs))[j] {
      if j > 0 { assert all[j] == rs[j - 1]; }
    }
  }

  lemma {:induction false} LayoutSkips(ls: seq<string>)
    requires ls != [] && !Opens(ls[0])
    ensures LayoutOf(ls).entities == LayoutOf(ls[1..]).entities
  {
    hide Opens, NonEmpty;
  }

  lemma {:induction false} LayoutEnds(ls: seq<string>)
    requires ls != [] && Opens(ls[0]) && (ThrowsAt(ls, 0) || Closing(ls, 1, NameAt(ls, 0)) == |ls|)
    ensures LayoutOf(ls).entities == []
  {
    hide Opens, NameAt, KeepAt, ThrowsAt, Closing, Body;
  }

  lemma {:induction false} LayoutTakes(ls: seq<string>, c: nat)
    requires ls != [] && Opens(ls[0]) && !ThrowsAt(ls, 0) && c == Closing(ls, 1, NameAt(ls, 0)) && c < |ls|
    ensures LayoutOf(ls).entities
            == [Entity(NameAt(ls, 0), KeepAt(ls, 0), Body(ls, 1, c))] + LayoutOf(ls[c + 1..]).entities
  {
    hide Opens, NameAt, KeepAt, ThrowsAt, Closing, Body;
  }

  lemma {:induction false} LayoutIsRegions(ls: seq<string>, i: nat)
    requires i <= |ls|
    ensures InFile(ls, Regions(ls, i))
    ensures LayoutOf(ls[i..]).entities == EntitiesOf(ls, Regions(ls, i))
    decreases |ls| - i
  {
    hide Opens, ThrowsAt, KeepAt, NameAt, Closing, Body, Regions, InFile, EntitiesOf, LayoutOf;
    RegionsInFile(ls, i);
    var here := ls[i..];
    if i == |ls| {
      assert here == [];
      NoRegionsAtEnd(ls);
    } else if !Opens(ls[i]) {
      assert here[0] == ls[i] && here[1..] == ls[i + 1..];
      RegionsSkip(ls, i);
      LayoutSkips(here);
      LayoutIsRegions(ls, i + 1);
    } else {
      var c := Closing(ls, i + 1, NameAt(ls, i));
      if c < |ls| { LayoutIsRegions(ls, c + 1); }
      HereIsRegion(ls, i, c);
    }
  }

  lemma {:induction false} HereIsRegion(ls: seq<string>, i: nat, c: nat)
    requires i < |ls| && Opens(ls[i]) && c == Closing(ls, i + 1, NameAt(ls, i)) && InFile(ls, Regions(ls, i))
    requires c < |ls| ==> InFile(ls, Regions(ls, c + 1))
                          && LayoutOf(ls[c + 1..]).entities == EntitiesOf(ls, Regions(ls, c + 1))
    ensures LayoutOf(ls[i..]).entities == EntitiesOf(ls, Regions(ls, i))
  {
    hide Opens, ThrowsAt, KeepAt, NameAt, Closing, Body, Regions, InFile, EntitiesOf, LayoutOf;
    RegionsHere(ls, i);
    SameLine(ls, i);
    var d := ClosingHere(ls, i, c);
    if c < |ls| && !ThrowsAt(ls, i) {
      LayoutTakes(ls[i..], d);
      EntityHere(ls, i, d);
      SuffixOfSuffix(ls, i, d + 1);
      EntitiesCons(ls, Region(NameAt(ls, i), KeepAt(ls, i), i, c), Regions(ls, c + 1));
    } else {
      LayoutEnds(ls[i..]);
      NoEntities(ls);
    }
  }

  lemma {:induction false} ClosingHere(ls: seq<string>, i: nat, c: nat) returns (d: nat)
    requires i < |ls| && Opens(ls[i]) && c == Closing(ls, i + 1, NameAt(ls, i))
    ensures Opens(ls[i..][0]) && d == Closing(ls[i..], 1, NameAt(ls[i..], 0)) && c == i + d
            && d <= |ls[i..]| == |ls| - i
  {
    hide Opens, NameAt, Closing;
    SameLine(ls, i);
    ClosingShift(ls, i, 1, NameAt(ls, i));
    d := Closing(ls[i..], 1, NameAt(ls[i..], 0));
  }

  lemma {:induction false} EntityHere(ls: seq<string>, i: nat, d: nat)
    requires 1 <= d && i + d < |ls| && Opens(ls[i]) && Opens(ls[i..][0])
    ensures Entity(NameAt(ls[i..], 0), KeepAt(ls[i..], 0), Body(ls[i..], 1, d))
            == Entity(NameAt(ls, i), KeepAt(ls, i), Body(ls, i + 1, i + d))
  {
    hide Opens, NameAt, KeepAt, Body;
    SameLine(ls, i);
    BodyShift(ls, i, 1, d);
  }

  lemma {:induction false} SuffixOfSuffix(ls: seq<string>, i: nat, j: nat)
    requires i + j <= |ls|
    ensures ls[i..][j..] == ls[i + j..]
  {
  }

  lemma {:induction false} NoEntities(ls: seq<string>)
    ensures InFile(ls, []) && EntitiesOf(ls, []) == []
  {
  }

  lemma {:induction false} NoRegionsAtEnd(ls: seq<string>)
    ensures Regions(ls, |ls|) == [] && InFile(ls, []) && EntitiesOf(ls, []) == [] && LayoutOf([]).entities == []
  {
    OpeningAtEnd(ls);
  }

  lemma {:induction false} OpeningAtEnd(ls: seq<string>)
    ensures Opening(ls, |ls|) == |ls|
  {
  }

  lemma {:induction false} SameLine(ls: seq<string>, i: nat)
    requires i < |ls| && Opens(ls[i])
    ensures Opens(ls[i..][0]) && NameAt(ls[i..], 0) == NameAt(ls, i)
    ensures KeepAt(ls[i..], 0) == KeepAt(ls, i) && ThrowsAt(ls[i..], 0) == ThrowsAt(ls, i)
  {
    hide Classify;
  }

  // ----- The layout of concatenated text -----

  /** The layout of text that goes on with the line cur. */
  function Lay(cur: string, text: string): Layout { LayoutOf(LinesFrom(cur, text)) }

  function Before(lines: seq<string>, l: Layout): Layout { Layout(NonEmpty(lines) + l.outside, l.entities) }

  function Behind(e: Entity, l: Layout): Layout { Layout(l.outside, [e] + l.entities) }

  /** Tag-free text is all outside. */
  lemma {:induction false} LayClean(cur: string, t: string, rest: string)
    requires Clean(cur, t)
    ensures Lay(cur, t + rest) == Before(LinesFrom(cur, t), Lay("", rest))
    decreases |t|
  {
    hide Classify, LayoutOf;
    if t == "" {
      assert t + rest == rest;
      assert LinesFrom(cur, t) == [] && NonEmpty([]) == [];
    } else {
      assert (t + rest)[0] == t[0] && (t + rest)[1..] == t[1..] + rest;
      if t[0] == '\n' {
        LayClean("", t[1..], rest);
        LayLine(cur, LinesFrom("", t[1..] + rest));
        NonEmptyCons(cur, LinesFrom("", t[1..]));
      } else {
        LayClean(cur + [t[0]], t[1..], rest);
      }
    }
  }

  lemma {:induction false} NonEmptyCons(l: string, ls: seq<string>)
    ensures NonEmpty([l] + ls) == NonEmpty([l]) + NonEmpty(ls)
  {
    assert ([l] + ls)[1..] == ls && [l][1..] == [];
  }

  lemma {:induction false} LayLine(l: string, ls: seq<string>)
    requires Classify(l) == Text
    ensures LayoutOf([l] + ls) == Before([l], LayoutOf(ls))
  {
    hide Classify;
    assert ([l] + ls)[1..] == ls;
  }

  lemma {:induction false} LinesWithin(cur: string, a: string, rest: string)
    requires '\n' !in a
    ensures LinesFrom(cur, a + rest) == LinesFrom(cur + a, rest)
    decreases |a|
  {
    if a == "" {
      assert cur + a == cur && a + rest == rest;
    } else {
      assert a[0] in a && forall c :: c in a[1..] ==> c in a;
      assert (a + rest)[0] == a[0] && (a + rest)[1..] == a[1..] + rest;
      LinesWithin(cur + [a[0]], a[1..], rest);
      assert cur + [a[0]] + a[1..] == cur + a;
    }
  }

  lemma {:induction false} WholeLine(l: string, rest: string)
    requires '\n' !in l
    ensures LinesFrom("", l + "\n" + rest) == [l] + LinesFrom("", rest)
  {
    assert l + "\n" + rest == l + ("\n" + rest) && "" + l == l;
    LinesWithin("", l, "\n" + rest);
    assert ("\n" + rest)[0] == '\n' && ("\n" + rest)[1..] == rest;
  }

  /** Tag-free text as lines: none is a tag, and they are the text. */
  lemma {:induction false} CleanLines(cur: string, t: string, rest: string)
    requires Clean(cur, t)
    ensures LinesFrom(cur, t + rest) == LinesFrom(cur, t) + LinesFrom("", rest)
    ensures forall l :: l in LinesFrom(cur, t) ==> Classify(l) == Text
    ensures Joined(LinesFrom(cur, t)) == cur + t
    decreases |t|
  {
    hide Classify;
    if t == "" {
      assert t + rest == rest && cur + t == "";
    } else {
      assert (t + rest)[0] == t[0] && (t + rest)[1..] == t[1..] + rest;
      if t[0] == '\n' {
        CleanLines("", t[1..], rest);
        assert LinesFrom(cur, t)[1..] == LinesFrom("", t[1..]);
        assert cur + "\n" + ("" + t[1..]) == cur + t;
      } else {
        CleanLines(cur + [t[0]], t[1..], rest);
        assert cur + [t[0]] + t[1..] == cur + t;
      }
    }
  }

  function Joined(ls: seq<string>): string {
    if ls == [] then "" else ls[0] + "\n" + Joined(ls[1..])
  }

  /** Between a start tag and its end tag. */
  lemma {:induction false} BodyIsJoined(ls: seq<string>, from: nat, body: seq<string>)
    requires from + |body| <= |ls| && ls[from..from + |body|] == body && forall l :: l in body ==> Classify(l) == Text
    ensures Body(ls, from, from + |body|) == Joined(body)
    decreases |body|
  {
    hide Classify, Body, Joined;
    var n := |body| - 1;
    if n < 0 {
      NoBody(ls, from);
      assert body == [];
    } else {
      var front, to := body[..n], from + n;
      assert front == ls[from..to] && ls[to] == body[n] && body[n] in body;
      forall l | l in front ensures Classify(l) == Text { assert l in body; }
      BodyIsJoined(ls, from, front);
      BodySnoc(ls, from, to);
      JoinedSnoc(front, body[n]);
      assert front + [body[n]] == body;
    }
  }

  lemma {:induction false} NoBody(ls: seq<string>, from: nat)
    requires from <= |ls|
    ensures Body(ls, from, from) == "" && Joined([]) == ""
  {
  }

  lemma {:induction false} BodySnoc(ls: seq<string>, from: nat, to: nat)
    requires from <= to < |ls| && Classify(ls[to]) == Text
    ensures Body(ls, from, to + 1) == Body(ls, from, to) + (ls[to] + "\n")
  {
    hide Classify;
  }

  lemma {:induction false} JoinedSnoc(ls: seq<string>, l: string)
    ensures Joined(ls + [l]) == Joined(ls) + (l + "\n")
  {
    if ls == [] {
      assert [] + [l] == [l] && [l][1..] == [];
      assert l + "\n" + "" == l + "\n";
    } else {
      JoinedSnoc(ls[1..], l);
      assert (ls + [l])[1..] == ls[1..] + [l];
      assert ls[0] + "\n" + (Joined(ls[1..]) + (l + "\n")) == Joined(ls) + (l + "\n");
    }
  }

  lemma {:induction false} ClosesAt(ls: seq<string>, from: nat, body: seq<string>, name: string)
    requires from + |body| < |ls| && ls[from..from + |body|] == body && Closes(ls[from + |body|], name)
    requires forall l :: l in body ==> Classify(l) == Text
    ensures Closing(ls, from, name) == from + |body|
    decreases |body|
  {
    hide Classify;
    if body != [] {
      assert ls[from] == body[0] && body[0] in body;
      assert ls[from + 1..from + |body|] == body[1..];
      ClosesAt(ls, from + 1, body[1..], name);
    }
  }

  lemma {:induction false} LayRegionLines(start: string, body: seq<string>, end: string, after: seq<string>,
                                          name: string, keep: bool)
    requires Classify(start) == StartTag(true, name, if keep then Yes else No) && name != ""
    requires Classify(end) == EndTag(true, name) && forall l :: l in body ==> Classify(l) == Text
    ensures LayoutOf([start] + (body + ([end] + after))) == Behind(Entity(name, keep, Joined(body)), LayoutOf(after))
  {
    hide Classify;
    var ls := [start] + (body + ([end] + after));
    assert ls[0] == start && ls[1..1 + |body|] == body && ls[1 + |body|] == end && ls[|body| + 2..] == after;
    BodyIsJoined(ls, 1, body);
    ClosesAt(ls, 1, body, name);
    hide Closing, Body;
    assert Opens(ls[0]) && NameAt(ls, 0) == name && KeepAt(ls, 0) == keep && !ThrowsAt(ls, 0);
  }

  /** A written region is read back with its name, its keep word and its text. */
  lemma {:induction false} LayRegion(name: string, keep: bool, code: string, rest: string)
    requires GoodName(name) && Clean("", code)
    ensures Lay("", StartTagLine(name, keep) + "\n" + code + (EndTagLine(name) + "\n") + rest)
            == Behind(Entity(name, keep, code), Lay("", rest))
  {
    hide StartTagLine, EndTagLine, Classify, LayoutOf, Clean, LinesFrom;
    var start, end := StartTagLine(name, keep), EndTagLine(name);
    StartTagReads(name, keep);
    EndTagReads(name);
    TagLinesHaveNoNewline(name, keep);
    var behind := end + "\n" + rest;
    assert start + "\n" + code + (end + "\n") + rest == start + "\n" + (code + behind);
    WholeLine(start, code + behind);
    CleanLines("", code, behind);
    WholeLine(end, rest);
    assert "" + code == code;
    LayRegionLines(start, LinesFrom("", code), end, LinesFrom("", rest), name, keep);
  }

  lemma {:induction false} LayNewline(cur: string, rest: string)
    requires Classify(cur) == Text
    ensures Lay(cur, "\n" + rest) == Before([cur], Lay("", rest))
  {
    hide Classify;
    assert "" + "\n" == "\n" && cur + "" == cur;
    CleanLine(cur, "");
    LayClean(cur, "\n", rest);
    assert ("\n")[1..] == "";
    assert LinesFrom(cur, "\n") == [cur] + LinesFrom("", "");
  }

  lemma {:induction false} LayBlank(rest: string)
    ensures Lay("", "\n" + rest) == Lay("", rest)
  {
    EmptyIsText();
    LayNewline("", rest);
    assert NonEmpty([""]) == [] + NonEmpty([]);
  }

  // ----- What a generated file is to hold -----

  ghost predicate Kept(k: Keeps, n: string) { n in k.codes && k.codes[n] != "" }

  /** Up to newlines between them, b is these pieces in order. */
  ghost predicate Interleaved(b: string, pieces: seq<string>)
    decreases |pieces|
  {
    if pieces == [] then forall c :: c in b ==> c == '\n'
    else exists pre, post :: b == pre + pieces[0] + post && (forall c :: c in pre ==> c == '\n')
                             && Interleaved(post, pieces[1..])
  }

  /** A member's own text: its indented text, or its head, its members and its closing brace. */
  function Pieces(m: Member, indent: int): seq<string>
    decreases m, 1
  {
    match m
    case Field(_, text) => [Spaces(indent) + text + "\n"]
    case Method(_, text) => [Spaces(indent) + text + "\n"]
    case Inner(_, head, members) =>
      [Spaces(indent) + head + " {"] + AllPieces(members, indent + 2) + [Spaces(indent) + "}\n"]
  }

  function AllPieces(ms: seq<Member>, indent: int): seq<string>
    decreases ms, 0
  {
    if ms == [] then [] else Pieces(ms[0], indent) + AllPieces(ms[1..], indent)
  }

  /** The region of a member of the top-level class: kept code if there is any, and else its own text. */
  ghost predicate Fits(e: Entity, m: Member, k: Keeps) {
    && e.name == m.name && (e.keep <==> Kept(k, m.name))
    && (e.keep ==> e.body == k.codes[m.name])
    && (!e.keep && !m.Inner? ==> e.body == Spaces(2) + m.text + "\n")
    && (!e.keep ==> Interleaved(e.body, Pieces(m, 2)))
  }

  ghost predicate HeadFits(e: Entity, name: string, own: string, k: Keeps) {
    && e.name == name && (e.keep <==> Kept(k, name))
    && e.body == if Kept(k, name) then k.codes[name] else own
  }

  // ----- Pieces -----

  ghost predicate OnlyNewlines(s: string) { forall c :: c in s ==> c == '\n' }

  /** pre is only newlines, and then come the pieces. */
  ghost predicate Begins(b: string, pre: string, post: string, pieces: seq<string>)
    requires pieces != []
  {
    b == pre + pieces[0] + post && OnlyNewlines(pre) && Interleaved(post, pieces[1..])
  }

  lemma {:induction false} Beginning(b: string, pre: string, post: string, pieces: seq<string>)
    requires pieces != [] && Begins(b, pre, post, pieces)
    ensures Interleaved(b, pieces)
  {
  }

  lemma {:induction false} Begun(b: string, pieces: seq<string>) returns (pre: string, post: string)
    requires pieces != [] && Interleaved(b, pieces)
    ensures Begins(b, pre, post, pieces)
  {
    pre, post :| b == pre + pieces[0] + post && (forall c :: c in pre ==> c == '\n') && Interleaved(post, pieces[1..]);
  }

  lemma {:induction false} Newlines(n: string, p: string, ps: seq<string>)
    requires OnlyNewlines(n) && Interleaved(p, ps)
    ensures Interleaved(n + p, ps)
  {
    if ps != [] {
      var pre, post := Begun(p, ps);
      assert n + p == (n + pre) + ps[0] + post;
      Beginning(n + p, n + pre, post, ps);
    }
  }

  lemma {:induction false} PiecesConcat(a: string, ps: seq<string>, b: string, qs: seq<string>)
    requires Interleaved(a, ps) && Interleaved(b, qs)
    ensures Interleaved(a + b, ps + qs)
    decreases |ps|
  {
    if ps == [] {
      assert ps + qs == qs;
      Newlines(a, b, qs);
    } else {
      hide Interleaved;
      var pre, post := Begun(a, ps);
      PiecesConcat(post, ps[1..], b, qs);
      assert (ps + qs)[0] == ps[0] && (ps + qs)[1..] == ps[1..] + qs;
      assert a + b == pre + ps[0] + (post + b);
      Beginning(a + b, pre, post + b, ps + qs);
    }
  }

  lemma {:induction false} OnePiece(p: string)
    ensures Interleaved(p, [p])
  {
    assert p == "" + [p][0] + "" && [p][1..] == [] && Interleaved("", []);
  }

  lemma {:induction false} MembersInterleaved(ms: seq<Member>, env: Env, level: int, indent: int, first: bool)
    requires level >= 2
    ensures Interleaved(MembersText(ms, env, level, indent, first), AllPieces(ms, indent))
    decreases ms, 0
  {
    hide MemberText, Pieces, Interleaved;
    if ms == [] {
      NothingInterleaved();
    } else {
      MemberInterleaved(ms[0], env, level, indent, first);
      MembersInterleaved(ms[1..], env, level, indent, ms[0].Inner?);
      PiecesConcat(MemberText(ms[0], env, level, indent, first), Pieces(ms[0], indent),
                   MembersText(ms[1..], env, level, indent, ms[0].Inner?), AllPieces(ms[1..], indent));
    }
  }

  lemma {:induction false} NothingInterleaved()
    ensures Interleaved("", [])
  {
  }

  lemma {:induction false} MemberInterleaved(m: Member, env: Env, level: int, indent: int, first: bool)
    requires level >= 2
    ensures Interleaved(MemberText(m, env, level, indent, first), Pieces(m, indent))
    decreases m, 0
  {
    hide ClassBody, Interleaved, Spaces, AllPieces;
    match m
    case Field(_, text) =>
      OnePiece(Spaces(indent) + text + "\n");
      Newlines((if first then "\n" else "") + "\n", Spaces(indent) + text + "\n", Pieces(m, indent));
      assert MemberText(m, env, level, indent, first)
          == (if first then "\n" else "") + "\n" + (Spaces(indent) + text + "\n");
    case Method(_, text) =>
      OnePiece(Spaces(indent) + text + "\n");
      Newlines("\n", Spaces(indent) + text + "\n", Pieces(m, indent));
      assert MemberText(m, env, level, indent, first) == "\n" + (Spaces(indent) + text + "\n");
    case Inner(_, head, members) =>
      BodyInterleaved(head, members, env, level, indent);
      var body := ClassBody(head, members, env, level, indent);
      assert Pieces(m, indent)
          == [Spaces(indent) + head + " {"] + AllPieces(members, indent + 2) + [Spaces(indent) + "}\n"];
      Newlines((if first then "\n" else "") + "\n\n", body, Pieces(m, indent));
      assert MemberText(m, env, level, indent, first) == (if first then "\n" else "") + "\n\n" + body;
  }

  lemma {:induction false} BodyInterleaved(head: string, ms: seq<Member>, env: Env, level: int, indent: int)
    requires level >= 1
    ensures Interleaved(ClassBody(head, ms, env, level, indent),
                        [Spaces(indent) + head + " {"] + AllPieces(ms, indent + 2) + [Spaces(indent) + "}\n"])
    decreases ms, 1
  {
    hide Interleaved, Spaces, MembersText, AllPieces, KeptRegions, LeftOver;
    var open, mid, close := Spaces(indent) + head + " {", MembersText(ms, env, level + 1, indent + 2, true),
        Spaces(indent) + "}\n";
    OnePiece(open);
    MembersInterleaved(ms, env, level + 1, indent + 2, true);
    OnePiece(close);
    Newlines("\n", close, [close]);
    PiecesConcat(open, [open], mid, AllPieces(ms, indent + 2));
    PiecesConcat(open + mid, [open] + AllPieces(ms, indent + 2), "\n" + close, [close]);
    assert ClassBody(head, ms, env, level, indent) == open + "" + mid + ("\n" + close);
    assert open + "" + mid == open + mid;
  }

  // ----- The layout of a generated file -----

  function BehindAll(es: seq<Entity>, l: Layout): Layout { Layout(l.outside, es + l.entities) }

  /** What stands between the tags. */
  function EntityOf(name: string, own: string, k: Keeps): Entity {
    Entity(name, CodeOf(k, name) != "", if CodeOf(k, name) != "" then CodeOf(k, name) else own)
  }

  lemma {:induction false} LayTagged(name: string, level: int, override: bool, own: string, k: Keeps, rest: string)
    requires GoodName(name) && (level == 1 || override) && GoodKeeps(k) && Clean("", own)
    ensures Lay("", Tagged(name, level, override, CodeOf(k, name), own) + rest)
            == Behind(EntityOf(name, own, k), Lay("", rest))
  {
    hide StartTagLine, EndTagLine, LayoutOf, LinesFrom, GoodName, Clean, CodeOf;
    CodeIsClean(k, name);
    var existing := CodeOf(k, name);
    LayRegion(name, existing != "", if existing != "" then existing else own, rest);
  }

  lemma {:induction false} LayLead(cur: string, m: Member, first: bool, rest: string)
    requires Classify(cur) == Text
    ensures Lay(cur, Lead(m, first) + rest) == Before([cur], Lay("", rest))
  {
    hide Classify, Lay, NonEmpty;
    LayNewline(cur, rest);
    LayNewline(cur, "\n" + rest);
    LayNewline(cur, "\n" + ("\n" + rest));
    LayBlank(rest);
    LayBlank("\n" + rest);
    assert "\n\n" + rest == "\n" + ("\n" + rest);
    assert "\n" + "\n" + rest == "\n" + ("\n" + rest) && "" + "\n" + rest == "\n" + rest;
    assert "\n" + "\n\n" + rest == "\n" + ("\n" + ("\n" + rest)) && "" + "\n\n" + rest == "\n" + ("\n" + rest);
  }

  function MemberEntities(ms: seq<Member>, env: Env): (es: seq<Entity>)
    ensures |es| == |ms|
    ensures forall i :: 0 <= i < |ms| ==> es[i] == EntityOf(ms[i].name, OwnText(ms[i], env, 2), env.kept)
  {
    if ms == [] then []
    else [EntityOf(ms[0].name, OwnText(ms[0], env, 2), env.kept)] + MemberEntities(ms[1..], env)
  }

  lemma {:induction false} LayMembers(cur: string, ms: seq<Member>, env: Env, first: bool, rest: string)
    requires Classify(cur) == Text && GoodMembers(ms) && GoodKeeps(env.kept)
    ensures Lay(cur, MembersText(ms, env, 1, 2, first) + ("\n" + rest))
            == Before([cur], BehindAll(MemberEntities(ms, env), Lay("", rest)))
    decreases |ms|
  {
    hide Classify, MemberText, GoodMember, GoodKeeps, Lay, EntityOf, OwnText, NonEmpty, Lead, Tagged;
    if ms == [] {
      LayNewline(cur, rest);
      assert "" + ("\n" + rest) == "\n" + rest;
    } else {
      var m, own := ms[0], OwnText(ms[0], env, 2);
      var tagged := Tagged(m.name, 1, false, CodeOf(env.kept, m.name), own);
      var tail := MembersText(ms[1..], env, 1, 2, m.Inner?) + ("\n" + rest);
      MemberSplit(m, env, 2, first);
      OwnIsClean(m, env, 2);
      LayLead(cur, m, first, tagged + tail);
      LayTagged(m.name, 1, false, own, env.kept, tail);
      EmptyIsText();
      LayMembers("", ms[1..], env, m.Inner?, rest);
      NoEmptyLine();
      assert MembersText(ms, env, 1, 2, first) + ("\n" + rest) == Lead(m, first) + (tagged + tail);
    }
  }

  lemma {:induction false} NoEmptyLine()
    ensures NonEmpty([""]) == []
  {
    assert [""][1..] == [] && NonEmpty([]) == [];
  }

  function KeptEntities(names: seq<string>, k: Keeps): (es: seq<Entity>)
    ensures |es| == |names| && forall i :: 0 <= i < |names| ==> es[i] == Entity(names[i], true, CodeOf(k, names[i]))
  {
    seq(|names|, i requires 0 <= i < |names| => Entity(names[i], true, CodeOf(k, names[i])))
  }

  lemma {:induction false} LayKept(cur: string, names: seq<string>, k: Keeps, rest: string)
    requires Classify(cur) == Text && GoodKeeps(k) && forall n :: n in names ==> n in k.codes
    ensures Lay(cur, KeptRegions(names, k) + rest)
            == if names == [] then Lay(cur, rest) else Before([cur], BehindAll(KeptEntities(names, k), Lay("", rest)))
    decreases |names|
  {
    hide Classify, Lay, NonEmpty, CodeOf, StartTagLine, EndTagLine;
    if names == [] {
      assert "" + rest == rest;
    } else {
      var n, tail := names[0], KeptRegions(names[1..], k) + rest;
      KeptIsGood(k, n);
      var region := StartTagLine(n, true) + "\n" + CodeOf(k, n) + (EndTagLine(n) + "\n");
      LayNewline(cur, region + tail);
      LayRegion(n, true, CodeOf(k, n), tail);
      EmptyIsText();
      LayKept("", names[1..], k, rest);
      NoEmptyLine();
      assert KeptEntities(names, k) == [Entity(n, true, CodeOf(k, n))] + KeptEntities(names[1..], k);
      assert KeptRegions(names, k) + rest == "\n" + (region + tail) by {
        assert KeptRegions(names, k) == "\n" + (StartTagLine(n, true) + "\n") + CodeOf(k, n) + (EndTagLine(n) + "\n")
                                        + KeptRegions(names[1..], k);
      }
    }
  }

  lemma {:induction false} KeptIsGood(k: Keeps, n: string)
    requires GoodKeeps(k) && n in k.codes
    ensures GoodName(n) && Clean("", CodeOf(k, n))
  {
  }

  lemma {:induction false} LayHeadEntity(name: string, own: string, k: Keeps, rest: string)
    requires GoodName(name) && GoodKeeps(k) && Clean("", own)
    ensures Lay("", Tagged(name, 0, true, CodeOf(k, name), own) + ("\n" + rest))
            == Behind(EntityOf(name, own, k), Lay("", rest))
  {
    hide Lay, Tagged, EntityOf, GoodName, Clean, GoodKeeps, CodeOf;
    LayTagged(name, 0, true, own, k, "\n" + rest);
    LayBlank(rest);
  }

  lemma {:induction false} HeadTextSplit(f: JavaFile, k: Keeps, rest: string, hc: string, pa: string, im: string)
    requires hc == Tagged("HeaderComment", 0, true, CodeOf(k, "HeaderComment"), "")
    requires pa == Tagged("package", 0, true, CodeOf(k, "package"), f.pack)
    requires im == Tagged("imports", 0, true, CodeOf(k, "imports"), f.imports)
    ensures HeadText(f, k) + rest
            == f.banner + (hc + ("\n" + (f.note + (pa + ("\n" + (im + ("\n" + rest)))))))
  {
    hide Tagged, CodeOf;
  }

  lemma {:induction false} LayHead(f: JavaFile, k: Keeps, rest: string)
    requires GoodFile(f) && GoodKeeps(k)
    ensures Lay("", HeadText(f, k) + rest)
            == Before(Lines(f.banner),
                 Behind(EntityOf("HeaderComment", "", k),
                   Before(Lines(f.note),
                     Behind(EntityOf("package", f.pack, k),
                       Behind(EntityOf("imports", f.imports, k), Lay("", rest))))))
  {
    HeadEntityNames();
    assert Clean("", "") && Clean("", f.banner) && Clean("", f.note) && Clean("", f.pack) && Clean("", f.imports);
    hide Lay, Tagged, EntityOf, GoodName, Clean, GoodKeeps, CodeOf, GoodFile, LinesFrom, Before, Behind, HeadText;
    var hc := Tagged("HeaderComment", 0, true, CodeOf(k, "HeaderComment"), "");
    var pa := Tagged("package", 0, true, CodeOf(k, "package"), f.pack);
    var im := Tagged("imports", 0, true, CodeOf(k, "imports"), f.imports);
    var r3 := im + ("\n" + rest);
    var r2 := pa + ("\n" + r3);
    HeadTextSplit(f, k, rest, hc, pa, im);
    LayClean("", f.banner, hc + ("\n" + (f.note + r2)));
    LayHeadEntity("HeaderComment", "", k, f.note + r2);
    LayClean("", f.note, r2);
    LayHeadEntity("package", f.pack, k, r3);
    LayHeadEntity("imports", f.imports, k, rest);
  }

  /** The inside of the top-level class, from the line with its head on. */
  lemma {:induction false} LayInside(open: string, left: seq<string>, ms: seq<Member>, env: Env, rest: string)
    requires Classify(open) == Text && GoodMembers(ms) && GoodKeeps(env.kept)
    requires forall n :: n in left ==> n in env.kept.codes
    ensures Lay(open, KeptRegions(left, env.kept) + (MembersText(ms, env, 1, 2, true) + ("\n" + rest)))
            == Before([open], BehindAll(KeptEntities(left, env.kept),
                BehindAll(MemberEntities(ms, env), Lay("", rest))))
  {
    hide Lay, Classify, GoodKeeps, GoodMembers, KeptEntities, MemberEntities, NonEmpty, KeptRegions, MembersText,
        CodeOf;
    LayKept(open, left, env.kept, MembersText(ms, env, 1, 2, true) + ("\n" + rest));
    if left == [] {
      LayMembers(open, ms, env, true, rest);
      NoKeptEntities(env.kept);
      var l := BehindAll(MemberEntities(ms, env), Lay("", rest));
      assert BehindAll([], l) == l;
    } else {
      EmptyIsText();
      LayMembers("", ms, env, true, rest);
      NoEmptyLine();
      var l := BehindAll(MemberEntities(ms, env), Lay("", rest));
      assert Before([""], l) == l;
    }
  }

  lemma {:induction false} LayClass(f: JavaFile, env: Env)
    requires GoodFile(f) && GoodKeeps(env.kept) && forall n :: n in env.kept.order ==> n in env.kept.codes
    ensures Lay("", ClassText(f.name, f.head, f.members, env, 0, 0) + "\n")
            == Layout([f.head + " {", "}"],
                      KeptEntities(LeftOver(env.kept.order, env.generated), env.kept) + MemberEntities(f.members, env))
  {
    var k := env.kept;
    assert GoodMembers(f.members) && '\n' !in f.head && Classify(f.head + " {") == Text;
    LastLayout();
    var open, left := f.head + " {", LeftOver(k.order, env.generated);
    forall n | n in left ensures n in k.codes { InLeftOver(k.order, env.generated, n); }
    hide Lay, Classify, GoodKeeps, GoodFile, GoodMembers, LeftOver, KeptEntities, MemberEntities, NonEmpty, KeptRegions,
        MembersText, ClassText;
    var close := "}\n" + "\n";
    var inside := KeptRegions(left, k) + (MembersText(f.members, env, 1, 2, true) + ("\n" + close));
    ClassTextInside(f, env, open, inside);
    TwoBlank(open + inside);
    LayWithin(open, inside);
    LayInside(open, left, f.members, env, close);
    OneLine(open);
  }

  lemma {:induction false} ClassTextInside(f: JavaFile, env: Env, open: string, inside: string)
    requires open == f.head + " {"
    requires inside == KeptRegions(LeftOver(env.kept.order, env.generated), env.kept)
                       + (MembersText(f.members, env, 1, 2, true) + ("\n" + ("}\n" + "\n")))
    ensures ClassText(f.name, f.head, f.members, env, 0, 0) + "\n" == "\n\n" + (open + inside)
  {
    hide KeptRegions, MembersText, ClassText, LeftOver;
    ClassSplit(f, env);
    assert "\n" + "}\n" + "\n" == "\n" + ("}\n" + "\n");
  }

  lemma {:induction false} TwoBlank(rest: string)
    ensures Lay("", "\n\n" + rest) == Lay("", rest)
  {
    hide Lay;
    assert "\n\n" + rest == "\n" + ("\n" + rest);
    LayBlank("\n" + rest);
    LayBlank(rest);
  }

  lemma {:induction false} NoKeptEntities(k: Keeps)
    ensures KeptEntities([], k) == []
  {
  }

  lemma {:induction false} OneLine(l: string)
    requires l != ""
    ensures NonEmpty([l]) == [l]
  {
    assert [l][1..] == [] && NonEmpty([]) == [];
  }

  lemma {:induction false} LayWithin(a: string, rest: string)
    requires '\n' !in a
    ensures Lay("", a + rest) == Lay(a, rest)
  {
    LinesWithin("", a, rest);
    assert "" + a == a;
  }

  lemma {:induction false} LastLayout()
    ensures Lay("", "}\n" + "\n") == Layout(["}"], [])
  {
    assert Classify("}") == Text;
    hide Classify, LayoutOf;
    assert "" + "}" == "}" && "}" + "\n" == "}\n" && "}\n" + "\n" == "}" + ("\n" + "\n");
    LayWithin("}", "\n" + "\n");
    LayNewline("}", "\n");
    assert "\n" == "\n" + "";
    LayBlank("");
    assert LayoutOf(LinesFrom("", "")) == Layout([], []) by { NothingLaid(); }
    OneLine("}");
  }

  lemma {:induction false} NothingLaid()
    ensures LayoutOf(LinesFrom("", "")) == Layout([], [])
  {
  }

  // ----- Main result -----

  lemma {:induction false} EntityFits(m: Member, env: Env)
    ensures Fits(EntityOf(m.name, OwnText(m, env, 2), env.kept), m, env.kept)
  {
    hide Interleaved, ClassBody, Spaces;
    match m
    case Field(_, text) => OnePiece(Spaces(2) + text + "\n");
    case Method(_, text) => OnePiece(Spaces(2) + text + "\n");
    case Inner(_, head, members) => BodyInterleaved(head, members, env, 1, 2);
  }

  /** The entities of the head, the left-over entities and one for every member of the class, in order;
      kept code stands where there is some, and fresh code everywhere else. */
  ghost predicate Holds(es: seq<Entity>, f: JavaFile, left: seq<string>, k: Keeps) {
    && |es| == 3 + |left| + |f.members|
    && HeadFits(es[0], "HeaderComment", "", k) && HeadFits(es[1], "package", f.pack, k)
    && HeadFits(es[2], "imports", f.imports, k)
    && (forall i :: 0 <= i < |left| ==> left[i] in k.codes && es[3 + i] == Entity(left[i], true, k.codes[left[i]]))
    && (forall i :: 0 <= i < |f.members| ==> Fits(es[3 + |left| + i], f.members[i], k))
  }

  lemma {:induction false} AllHold(f: JavaFile, env: Env, left: seq<string>)
    requires forall n :: n in left ==> n in env.kept.codes
    ensures var k := env.kept;
            Holds([EntityOf("HeaderComment", "", k)]
                + ([EntityOf("package", f.pack, k)] + ([EntityOf("imports", f.imports, k)]
                  + (KeptEntities(left, k) + MemberEntities(f.members, env)))), f, left, k)
  {
    var k := env.kept;
    forall i | 0 <= i < |f.members|
      ensures Fits(EntityOf(f.members[i].name, OwnText(f.members[i], env, 2), k), f.members[i], k)
    {
      EntityFits(f.members[i], env);
    }
    hide Fits, OwnText;
  }

  /**
   What the new file holds. Outside of its entities there are only the banner, the note, and the
   head and the closing brace of the class.
   */
  lemma {:induction false} FileHolds(f: JavaFile, env: Env)
    requires GoodFile(f) && GoodKeeps(env.kept) && forall n :: n in env.kept.order ==> n in env.kept.codes
    ensures var l := LayoutOf(Lines(FileText(f, env)));
            && l.outside == NonEmpty(Lines(f.banner)) + (NonEmpty(Lines(f.note)) + [f.head + " {", "}"])
            && Holds(l.entities, f, LeftOver(env.kept.order, env.generated), env.kept)
  {
    var k := env.kept;
    var left := LeftOver(k.order, env.generated);
    forall n | n in left ensures n in k.codes { InLeftOver(k.order, env.generated, n); }
    hide GoodFile, GoodKeeps, LayoutOf, LinesFrom, NonEmpty, HeadText, ClassText, LeftOver, Holds, EntityOf;
    var bottom := ClassText(f.name, f.head, f.members, env, 0, 0) + "\n";
    assert HeadText(f, k) + bottom == FileText(f, env);
    LayHead(f, k, bottom);
    LayClass(f, env);
    AllHold(f, env, left);
  }

  /** Left-over entities are the kept ones that the new file does not generate, in their old order. */
  lemma {:induction false} LeftOverInOrder(order: seq<string>, generated: set<string>, i: nat, j: nat)
      returns (a: nat, b: nat)
    requires i < j < |LeftOver(order, generated)|
    ensures a < b < |order| && order[a] == LeftOver(order, generated)[i] && order[b] == LeftOver(order, generated)[j]
    decreases |order|
  {
    if order[0] in generated {
      assert LeftOver(order, generated) == LeftOver(order[1..], generated);
      a, b := LeftOverInOrder(order[1..], generated, i, j);
      a, b := a + 1, b + 1;
    } else {
      var rest := LeftOver(order[1..], generated);
      assert LeftOver(order, generated) == [order[0]] + rest;
      if i == 0 {
        InLeftOver(order[1..], generated, rest[j - 1]);
        var p :| 0 <= p < |order[1..]| && order[1..][p] == rest[j - 1];
        a, b := 0, p + 1;
      } else {
        a, b := LeftOverInOrder(order[1..], generated, i - 1, j - 1);
        a, b := a + 1, b + 1;
      }
    }
  }

  /** The same of a file generated over an existing one, in terms of the regions that ReadJavaFile sees. */
  lemma {:induction false} RegeneratedFileHolds(existing: string, f: JavaFile)
    requires ReadText(existing).Reader? && GoodFile(f)
    ensures var k := ReadText(existing).keeps; var ls := Lines(FileText(f, Env(k, Generated(f))));
            && InFile(ls, Regions(ls, 0))
            && Holds(EntitiesOf(ls, Regions(ls, 0)), f, LeftOver(k.order, Generated(f)), k)
  {
    var k := ReadText(existing).keeps;
    FromReader(existing);
    var env := Env(k, Generated(f));
    var ls := Lines(FileText(f, env));
    hide ReadText, FileText, GoodFile, GoodKeeps, Generated, LeftOver, LayoutOf, Regions, InFile, Holds, LinesFrom,
        EntitiesOf;
    FileHolds(f, env);
    LayoutIsRegions(ls, 0);
    assert ls[0..] == ls;
  }
}
