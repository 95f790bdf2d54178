/**
 The Java side of the back end: the text of a generated file, given the entities kept
 from an existing one. Fresh text of a member is a parameter; what is modelled is where
 tags, fresh code, kept code and left-over kept code go.
 */
module KeepTagWriter {
  import opened KeepTagText
  import opened KeepTagReader

  /** Names are tag names: the mangled name for a method with a body. Field text includes its semicolon. */
  datatype Member =
    | Field(name: string, text: string)
    | Method(name: string, text: string)
    | Inner(name: string, head: string, members: seq<Member>)

  /** banner: the comment lines with the date; note: the line naming the specification file. */
  datatype JavaFile = JavaFile(banner: string, note: string, pack: string, imports: string,
                               name: string, head: string, members: seq<Member>)

  datatype Env = Env(kept: Keeps, generated: set<string>)

  function CodeOf(k: Keeps, name: string): string {
    if name in k.codes then k.codes[name] else ""
  }

  /** CheckExisting. */
  function Existing(k: Keeps, name: string, level: int, override: bool): string {
    if level != 1 && !override then "" else CodeOf(k, name)
  }

  function StartKeepTag(name: string, level: int, override: bool, keep: bool): string {
    if level == 1 || override then StartTagLine(name, keep) + "\n" else ""
  }

  function EndKeepTag(name: string, level: int, override: bool): string {
    if level == 1 || override then EndTagLine(name) + "\n" else ""
  }

  /** An entity between its tags: the existing code if there is any, and else the fresh one. */
  function Tagged(name: string, level: int, override: bool, existing: string, own: string): string {
    StartKeepTag(name, level, override, existing != "")
    + (if existing != "" then existing else own)
    + EndKeepTag(name, level, override)
  }

  /** Kept entities that the new file does not generate, in their existing order. */
  function LeftOver(order: seq<string>, generated: set<string>): seq<string> {
    if order == [] then []
    else (if order[0] in generated then [] else [order[0]]) + LeftOver(order[1..], generated)
  }

  function KeptRegions(names: seq<string>, k: Keeps): string {
    if names == [] then ""
    else "\n" + StartKeepTag(names[0], 1, true, true) + CodeOf(k, names[0]) + EndKeepTag(names[0], 1, true)
         + KeptRegions(names[1..], k)
  }

  /** first: the context is still CLASS, which costs a field one more newline. */
  function MemberText(m: Member, env: Env, level: int, indent: int, first: bool): string
    decreases m, 2
  {
    match m
    case Field(name, text) =>
      (if first then "\n" else "") + "\n"
      + Tagged(name, level, false, Existing(env.kept, name, level, false), Spaces(indent) + text + "\n")
    case Method(name, text) =>
      "\n" + Tagged(name, level, false, Existing(env.kept, name, level, false), Spaces(indent) + text + "\n")
    case Inner(name, head, members) =>
      (if first then "\n" else "") + ClassText(name, head, members, env, level, indent)
  }

  function MembersText(ms: seq<Member>, env: Env, level: int, indent: int, first: bool): string
    decreases ms, 0
  {
    if ms == [] then ""
    else MemberText(ms[0], env, level, indent, first) + MembersText(ms[1..], env, level, indent, ms[0].Inner?)
  }

  function ClassText(name: string, head: string, ms: seq<Member>, env: Env, level: int, indent: int): string
    decreases ms, 2
  {
    "\n\n" + Tagged(name, level, false, Existing(env.kept, name, level, false), ClassBody(head, ms, env, level, indent))
  }

  function ClassBody(head: string, ms: seq<Member>, env: Env, level: int, indent: int): string
    decreases ms, 1
  {
    ClassOpen(head, indent) + TopOfClass(env, level + 1)
    + MembersText(ms, env, level + 1, indent + 2, true)
    + ClassClose(indent)
  }

  function ClassOpen(head: string, indent: int): string { Spaces(indent) + head + " {" }

  function ClassClose(indent: int): string { "\n" + Spaces(indent) + "}\n" }

  /** Only the top-level class starts with the left-over entities. */
  function TopOfClass(env: Env, level: int): string {
    if level == 1 then KeptRegions(LeftOver(env.kept.order, env.generated), env.kept) else ""
  }

  function LogInfoText(banner: string, k: Keeps): string {
    banner + (Tagged("HeaderComment", 0, true, CodeOf(k, "HeaderComment"), "") + "\n")
  }

  function PackageAndImportText(pack: string, imports: string, k: Keeps): string {
    Tagged("package", 0, true, CodeOf(k, "package"), pack) + "\n"
    + Tagged("imports", 0, true, CodeOf(k, "imports"), imports)
  }

  function HeadText(f: JavaFile, k: Keeps): string {
    LogInfoText(f.banner, k) + f.note + PackageAndImportText(f.pack, f.imports, k) + "\n"
  }

  function FileText(f: JavaFile, env: Env): string {
    HeadText(f, env.kept) + ClassText(f.name, f.head, f.members, env, 0, 0) + "\n"
  }

  /** GetASTEntities inside the top-level class: an inner class counts as one entity. */
  function Entities(ms: seq<Member>): (s: set<string>)
    ensures forall n :: n in s <==> exists i :: 0 <= i < |ms| && ms[i].name == n
  {
    if ms == [] then {} else
      var rest := Entities(ms[1..]);
      assert forall i :: 0 < i < |ms| ==> ms[i] == ms[1..][i - 1];
      {ms[0].name} + rest
  }

  const HEAD_ENTITIES := {"package", "imports", "HeaderComment"}

  function Generated(f: JavaFile): set<string> { HEAD_ENTITIES + Entities(f.members) }

  // ----- The printing methods -----

  datatype ContextType = NF | IMPORT | CLASS | BE_DECL | FDEF

  class CGBackEnd {
    var m4code: string
    var last: ContextType
    var level: int
    var indent: int
    var generatedEntities: set<string>
    var existingEntitiesMap: map<string, string>
    var existingEntitiesOrder: seq<string>

    constructor ()
      ensures level == 0 && indent == 0
    {
      level, indent := 0, 0;
    }

    function TheEnv(): Env
      reads this
    {
      Env(Keeps(existingEntitiesMap, existingEntitiesOrder), generatedEntities)
    }

    function CheckExisting(entityName: string, override: bool): (r: string)
      reads this
      ensures r == Existing(TheEnv().kept, entityName, level, override)
    {
      if level != 1 && !override then ""
      else if entityName in existingEntitiesMap then existingEntitiesMap[entityName]
      else ""
    }

    ghost predicate Consistent()
      reads this
    {
      forall n :: n in existingEntitiesOrder ==> n in existingEntitiesMap
    }

    method GenLogInfo(banner: string)
      modifies this`m4code
      requires level == 0
      ensures m4code == old(m4code) + LogInfoText(banner, TheEnv().kept)
    {
      hide Tagged, CodeOf;
      m4code := m4code + banner;
      GenHeadEntity("HeaderComment", "");
      m4code := m4code + "\n";
    }

    /** An entity of the file's head: its tags are written whatever the level. */
    method GenHeadEntity(name: string, own: string)
      modifies this`m4code
      ensures m4code == old(m4code) + Tagged(name, level, true, CodeOf(TheEnv().kept, name), own)
    {
      hide StartKeepTag, EndKeepTag, CodeOf;
      var existingCode := CheckExisting(name, true);
      if existingCode != "" {
        m4code := m4code + StartKeepTag(name, level, true, true);
        m4code := m4code + existingCode;
      } else {
        m4code := m4code + StartKeepTag(name, level, true, false);
        m4code := m4code + own;
      }
      m4code := m4code + EndKeepTag(name, level, true);
    }

    method GenPackageAndImportDeclarations(pack: string, imports: string)
      modifies this`m4code, this`last
      requires level == 0
      ensures m4code == old(m4code) + PackageAndImportText(pack, imports, TheEnv().kept)
      ensures last != CLASS || last == old(last)
    {
      hide Tagged, CodeOf;
      GenHeadEntity("package", pack);
      m4code := m4code + "\n";
      if CheckExisting("imports", true) == "" && imports != "" {
        last := IMPORT;
      }
      GenHeadEntity("imports", imports);
    }

    method GenIdentDeclaration(m: Member)
      requires !m.Method? && Consistent()
      modifies this`m4code, this`last, this`level, this`indent
      ensures m4code == old(m4code) + MemberText(m, TheEnv(), level, indent, old(last) == CLASS)
      ensures level == old(level) && indent == old(indent) && (last == CLASS <==> m.Inner?)
      decreases m, 2
    {
      hide StartKeepTag, EndKeepTag, ClassText, Existing, Spaces, Tagged;
      if last == CLASS {
        m4code := m4code + "\n";
      }
      match m
      case Field(name, text) =>
        m4code := m4code + "\n";
        GenDeclarator(name, text);
        last := BE_DECL;
      case Inner(name, head, members) =>
        GenClassSpecifier(name, head, members);
        last := CLASS;
    }

    /** The declaration proper, with the kept code in its place if there is any. */
    method GenDeclarator(name: string, text: string)
      modifies this`m4code
      ensures m4code == old(m4code)
                        + Tagged(name, level, false, Existing(TheEnv().kept, name, level, false),
                            Spaces(indent) + text + "\n")
    {
      hide StartKeepTag, EndKeepTag, Existing, Spaces;
      var existingCode := CheckExisting(name, false);
      if existingCode == "" {
        m4code := m4code + StartKeepTag(name, level, false, false);
        m4code := m4code + Spaces(indent);
        m4code := m4code + text;
        m4code := m4code + "\n";
      } else {
        m4code := m4code + StartKeepTag(name, level, false, true);
        m4code := m4code + existingCode;
      }
      m4code := m4code + EndKeepTag(name, level, false);
    }

    method GenFunctionDefinition(name: string, text: string)
      modifies this`m4code, this`last, this`level
      ensures forall e, first :: e == TheEnv() ==>
                m4code == old(m4code) + MemberText(Method(name, text), e, level, indent, first)
      ensures level == old(level) && last == FDEF
    {
      hide StartKeepTag, EndKeepTag, Existing, Spaces;
      m4code := m4code + "\n";
      ghost var before, own := m4code, Spaces(indent) + text + "\n";
      var existingCode := CheckExisting(name, false);
      if existingCode != "" {
        m4code := m4code + StartKeepTag(name, level, false, true);
        m4code := m4code + existingCode;
      } else {
        m4code := m4code + StartKeepTag(name, level, false, false);
        level := level + 1;
        m4code := m4code + Spaces(indent) + text + "\n";
        level := level - 1;
        assert m4code == before + StartKeepTag(name, level, false, false) + own;
      }
      last := FDEF;
      m4code := m4code + EndKeepTag(name, level, false);
      assert m4code == before + Tagged(name, level, false, existingCode, own);
      hide Tagged;
    }

    method GenClassSpecifier(name: string, head: string, ml: seq<Member>)
      requires Consistent()
      modifies this`m4code, this`last, this`level, this`indent
      ensures m4code == old(m4code) + ClassText(name, head, ml, TheEnv(), level, indent)
      ensures level == old(level) && indent == old(indent) && last == CLASS
      decreases ml, 2
    {
      hide StartKeepTag, EndKeepTag, Existing, Spaces, ClassBody;
      m4code := m4code + "\n";
      m4code := m4code + "\n";
      assert m4code == old(m4code) + "\n\n";
      ghost var before, own := m4code, ClassBody(head, ml, TheEnv(), level, indent);
      var existingCode := CheckExisting(name, false);
      if existingCode != "" {
        m4code := m4code + StartKeepTag(name, level, false, true);
        m4code := m4code + existingCode;
      } else {
        m4code := m4code + StartKeepTag(name, level, false, false);
        GenClassBody(head, ml);
      }
      last := CLASS;
      m4code := m4code + EndKeepTag(name, level, false);
      assert m4code == before + Tagged(name, level, false, existingCode, own);
      hide Tagged;
    }

    method GenClassBody(head: string, ml: seq<Member>)
      requires Consistent()
      modifies this`m4code, this`last, this`level, this`indent
      ensures m4code == old(m4code) + ClassBody(head, ml, TheEnv(), level, indent)
      ensures level == old(level) && indent == old(indent)
      decreases ml, 1
    {
      hide MembersText, TopOfClass, ClassOpen, ClassClose, Spaces;
      ghost var before, env := m4code, TheEnv();
      level := level + 1;
      m4code := m4code + (Spaces(indent) + head + " {");
      ClassBraces(head, indent);
      last := CLASS;
      indent := indent + 2;
      GenTopOfClass();
      GenMembers(ml);
      indent := indent - 2;
      m4code := m4code + ("\n" + Spaces(indent) + "}\n");
      level := level - 1;
    }

    method GenTopOfClass()
      requires Consistent()
      modifies this`m4code
      ensures m4code == old(m4code) + TopOfClass(TheEnv(), level)
    {
      if level == 1 {
        GenLeftOver();
      }
    }

    /** The left-over loop at the top of the class. */
    method GenLeftOver()
      requires level == 1 && Consistent()
      modifies this`m4code
      ensures m4code == old(m4code) + KeptRegions(LeftOver(existingEntitiesOrder, generatedEntities), TheEnv().kept)
    {
      hide StartKeepTag, EndKeepTag, LeftOver, KeptRegions;
      ghost var before, k := m4code, TheEnv().kept;
      ghost var all := KeptRegions(LeftOver(existingEntitiesOrder, generatedEntities), k);
      assert existingEntitiesOrder[0..] == existingEntitiesOrder;
      for i := 0 to |existingEntitiesOrder|
        invariant m4code + KeptRegions(LeftOver(existingEntitiesOrder[i..], generatedEntities), k) == before + all
      {
        var g := existingEntitiesOrder[i];
        LeftOverFrom(existingEntitiesOrder, i, generatedEntities, k);
        if g !in generatedEntities {
          m4code := m4code + ("\n" + StartKeepTag(g, level, true, true) + existingEntitiesMap[g]
              + EndKeepTag(g, level, true));
        }
      }
      assert existingEntitiesOrder[|existingEntitiesOrder|..] == [];
      NoLeftOver(generatedEntities, k);
    }

    method GenMembers(ml: seq<Member>)
      requires Consistent()
      modifies this`m4code, this`last, this`level, this`indent
      ensures m4code == old(m4code) + MembersText(ml, TheEnv(), level, indent, old(last) == CLASS)
      ensures level == old(level) && indent == old(indent)
      decreases ml, 0
    {
      hide MemberText;
      ghost var before, env := m4code, TheEnv();
      ghost var all := MembersText(ml, env, level, indent, last == CLASS);
      assert ml[0..] == ml;
      for i := 0 to |ml|
        invariant level == old(level) && indent == old(indent) && TheEnv() == env
        invariant m4code + MembersText(ml[i..], env, level, indent, last == CLASS) == before + all
      {
        assert ml[i..][0] == ml[i] && ml[i..][1..] == ml[i + 1..];
        match ml[i]
        case Method(name, text) => GenFunctionDefinition(name, text);
        case Field(_, _) => GenIdentDeclaration(ml[i]);
        case Inner(_, _, _) => GenIdentDeclaration(ml[i]);
      }
      assert ml[|ml|..] == [];
    }

    /** One file: read the existing one if there is one, then write the new one over it. */
    method GenFile(f: JavaFile, javaFile: Opt<string>) returns (threw: bool)
      requires level == 0
      modifies this
      ensures var r := if javaFile.None? then INITIAL else ReadText(javaFile.value);
              && (threw <==> r.Thrown?)
              && (!threw ==> m4code == FileText(f, Env(r.keeps, Generated(f))))
      ensures level == 0
    {
      hide ClassText, LogInfoText, PackageAndImportText, ReadText;
      last := NF;
      indent := 0;
      if javaFile.None? {
        existingEntitiesMap, existingEntitiesOrder := map[], [];
      } else {
        var log;
        threw, existingEntitiesMap, existingEntitiesOrder, log := ReadJavaFile(javaFile.value);
        if threw { return; }
        OrderIsKept(javaFile.value);
      }
      threw := false;
      m4code := "";
      GenLogInfo(f.banner);
      m4code := m4code + f.note;
      ghost var kept := TheEnv().kept;
      generatedEntities := HEAD_ENTITIES - {"HeaderComment"};
      GenPackageAndImportDeclarations(f.pack, f.imports);
      m4code := m4code + "\n";
      assert m4code == HeadText(f, kept);
      hide HeadText;
      generatedEntities := generatedEntities + Entities(f.members) + {"HeaderComment"};
      assert generatedEntities == Generated(f);
      GenClassSpecifier(f.name, f.head, f.members);
      m4code := m4code + "\n";
    }
  }

  lemma {:induction false} ClassBraces(head: string, indent: int)
    ensures ClassOpen(head, indent) == Spaces(indent) + head + " {"
    ensures ClassClose(indent) == "\n" + Spaces(indent) + "}\n"
  {
  }

  lemma {:induction false} LeftOverFrom(order: seq<string>, i: nat, generated: set<string>, k: Keeps)
    requires i < |order|
    ensures KeptRegions(LeftOver(order[i..], generated), k)
            == (if order[i] in generated then ""
                else "\n" + StartKeepTag(order[i], 1, true, true) + CodeOf(k, order[i]) + EndKeepTag(order[i], 1, true))
               + KeptRegions(LeftOver(order[i + 1..], generated), k)
  {
    hide StartKeepTag, EndKeepTag, CodeOf;
    var rest := LeftOver(order[i + 1..], generated);
    assert order[i..][1..] == order[i + 1..];
    assert ([order[i]] + rest)[1..] == rest && [] + rest == rest;
  }

  lemma {:induction false} NoLeftOver(generated: set<string>, k: Keeps)
    ensures KeptRegions(LeftOver([], generated), k) == ""
  {
  }

  lemma {:induction false} OrderIsKept(text: string)
    ensures ReadText(text).Reader? ==>
              forall n :: n in ReadText(text).keeps.order ==> n in ReadText(text).keeps.codes
  {
    ReadTextOk(text);
    hide ReadText, GoodName, Clean;
    if ReadText(text).Reader? {
      var k := ReadText(text).keeps;
      assert forall n :: n in k.order ==> n in Names(k.order);
    }
  }
}
