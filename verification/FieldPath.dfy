/** Field-path templates: the template scanner, the matcher it compiles to, and rendering. */
module FieldPath {
  import opened Wrappers
  import opened Versions

  datatype Part = Lit(text: string) | Hole(name: string)

  type Values = map<string, string>

  predicate IdentStart(c: char) { 'a' <= c <= 'z' || 'A' <= c <= 'Z' || c == '_' }

  predicate IdentChar(c: char) { IdentStart(c) || IsDigit(c) }

  function IdentLen(s: string): (n: nat)
    ensures n <= |s| && (forall i :: 0 <= i < n ==> IdentChar(s[i])) && (n < |s| ==> !IdentChar(s[n]))
  {
    if s == "" || !IdentChar(s[0]) then 0 else 1 + IdentLen(s[1..])
  }

  /** The placeholder `{name}` at the very start of `s`, if there is one. */
  function PlaceholderAt(s: string): (p: Option<string>)
    ensures p.Some? ==> |p.value| + 2 <= |s| && "{" + p.value + "}" <= s
  {
    if |s| < 3 || s[0] != '{' || !IdentStart(s[1]) then None
    else
      var n := IdentLen(s[1..]);
      if n + 1 < |s| && s[n + 1] == '}' then
        assert "{" + s[1..n + 1] + "}" == s[..n + 2];
        Some(s[1..n + 1])
      else None
  }

  predicate Identifier(name: string) {
    name != "" && IdentStart(name[0]) && forall i :: 0 <= i < |name| ==> IdentChar(name[i])
  }

  lemma {:induction false} IdentLenIs(name: string, rest: string)
    requires forall i :: 0 <= i < |name| ==> IdentChar(name[i])
    ensures IdentLen(name + "}" + rest) == |name|
  {
    if name == "" {
      assert ("" + "}" + rest)[0] == '}';
    } else {
      assert (name + "}" + rest)[1..] == name[1..] + "}" + rest;
      IdentLenIs(name[1..], rest);
    }
  }

  lemma PlaceholderFound(name: string, rest: string)
    requires Identifier(name)
    ensures PlaceholderAt("{" + name + "}" + rest) == Some(name)
  {
    hide IdentChar, IdentLen;
    var s, t := "{" + name + "}" + rest, name + "}" + rest;
    IdentLenIs(name, rest);
    assert s[1..] == t;
    assert s[1] == t[0] == name[0];
    assert s[|name| + 1] == '}';
    assert s[1..|name| + 1] == name;
  }

  /** A placeholder is an identifier in braces. */
  lemma PlaceholderIff(s: string, name: string)
    ensures PlaceholderAt(s) == Some(name) <==> Identifier(name) && "{" + name + "}" <= s
  {
    if Identifier(name) && "{" + name + "}" <= s {
      var rest := s[|name| + 2..];
      assert s == "{" + name + "}" + rest;
      PlaceholderFound(name, rest);
    }
    if PlaceholderAt(s) == Some(name) {
      var n := IdentLen(s[1..]);
      assert forall i :: 0 <= i < n ==> name[i] == s[1..][i];
    }
  }

  /** The leftmost placeholder at or after `from`, as `finditer` finds it. */
  function NextPlaceholder(t: string, from: nat): (m: Option<(nat, string)>)
    requires from <= |t|
    ensures m.Some? ==>
              && from <= m.value.0 <= |t| && PlaceholderAt(t[m.value.0..]) == Some(m.value.1)
              && m.value.0 + |m.value.1| + 2 <= |t|
    decreases |t| - from
  {
    if PlaceholderAt(t[from..]).Some? then Some((from, PlaceholderAt(t[from..]).value))
    else if from == |t| then None
    else NextPlaceholder(t, from + 1)
  }

  lemma {:induction false} NextIsLeftmost(t: string, from: nat)
    requires from <= |t|
    ensures
      var m := NextPlaceholder(t, from);
      forall j :: from <= j < (if m.Some? then m.value.0 else |t| + 1) ==> PlaceholderAt(t[j..]).None?
    decreases |t| - from
  {
    hide PlaceholderAt;
    if PlaceholderAt(t[from..]).None? && from < |t| {
      NextIsLeftmost(t, from + 1);
    }
  }

  /** The pieces of a template from `last` on: literal, placeholder, literal, ..., literal. */
  function Parts(t: string, last: nat): seq<Part>
    requires last <= |t|
    decreases |t| - last
  {
    match NextPlaceholder(t, last)
    case None => [Lit(t[last..])]
    case Some((start, name)) => [Lit(t[last..start]), Hole(name)] + Parts(t, start + |name| + 2)
  }

  /** The loop of `_template_to_regex`. */
  method TemplateToParts(template: string) returns (parts: seq<Part>)
    ensures parts == Parts(template, 0)
  {
    hide PlaceholderAt, IdentLen, NextPlaceholder, Parts;
    parts := [];
    var last := 0;
    var m := NextPlaceholder(template, last);
    while m.Some?
      invariant last <= |template| && m == NextPlaceholder(template, last)
      invariant parts + Parts(template, last) == Parts(template, 0)
      decreases |template| - last
    {
      var (start, name) := m.value;
      PartsStep(template, last);
      parts := parts + [Lit(template[last..start])];
      parts := parts + [Hole(name)];
      last := start + |name| + 2;
      m := NextPlaceholder(template, last);
    }
    PartsStep(template, last);
    parts := parts + [Lit(template[last..])];
  }

  lemma PartsStep(t: string, last: nat)
    requires last <= |t|
    ensures var m := NextPlaceholder(t, last);
            Parts(t, last) ==
            if m.None? then [Lit(t[last..])]
            else [Lit(t[last..m.value.0]), Hole(m.value.1)] + Parts(t, m.value.0 + |m.value.1| + 2)
  {
  }

  function Source(parts: seq<Part>): string {
    if parts == [] then ""
    else (match parts[0] case Lit(text) => text case Hole(name) => "{" + name + "}") + Source(parts[1..])
  }

  predicate NoPlaceholderIn(text: string) {
    forall j :: 0 <= j <= |text| ==> PlaceholderAt(text[j..]).None?
  }

  /** Scanning loses nothing: the pieces spell the template again, and no literal hides a placeholder. */
  lemma {:induction false} PartsSpellTemplate(t: string, last: nat)
    requires last <= |t|
    ensures Source(Parts(t, last)) == t[last..]
    ensures forall p :: p in Parts(t, last) && p.Lit? ==> NoPlaceholderIn(p.text)
    decreases |t| - last
  {
    hide PlaceholderAt, IdentLen, NextPlaceholder, Parts, Source, NoPlaceholderIn;
    PartsStep(t, last);
    NextIsLeftmost(t, last);
    var m := NextPlaceholder(t, last);
    if m.Some? {
      var (start, name) := m.value;
      var next := start + |name| + 2;
      PartsSpellTemplate(t, next);
      SourceStep(t[last..start], name, Parts(t, next));
      SpellStep(t, last, start, name);
      LiteralIsClean(t, last, start);
    } else {
      LiteralIsClean(t, last, |t|);
      assert t[last..|t|] == t[last..];
      SourceOne(t[last..]);
    }
  }

  lemma SourceOne(text: string)
    ensures Source([Lit(text)]) == text
  {
  }

  lemma SourceStep(text: string, name: string, rest: seq<Part>)
    ensures Source([Lit(text), Hole(name)] + rest) == text + "{" + name + "}" + Source(rest)
  {
  }

  lemma SpellStep(t: string, last: nat, start: nat, name: string)
    requires last <= start && start + |name| + 2 <= |t| && PlaceholderAt(t[start..]) == Some(name)
    ensures t[last..] == t[last..start] + "{" + name + "}" + t[start + |name| + 2..]
  {
  }

  lemma LiteralIsClean(t: string, from: nat, to: nat)
    requires from <= to <= |t| && forall j :: from <= j < to ==> PlaceholderAt(t[j..]).None?
    ensures NoPlaceholderIn(t[from..to])
  {
    hide PlaceholderAt;
    forall j | 0 <= j <= to - from
      ensures PlaceholderAt(t[from..to][j..]).None?
    {
      if j < to - from {
        assert t[from..to][j..] == t[from + j..][..to - from - j];
        PlaceholderInPrefix(t[from + j..], to - from - j);
      } else {
        assert t[from..to][j..] == "";
        NothingHere();
      }
    }
  }

  lemma NothingHere()
    ensures PlaceholderAt("").None?
  {
  }

  lemma PlaceholderInPrefix(s: string, n: nat)
    requires n <= |s| && PlaceholderAt(s).None?
    ensures PlaceholderAt(s[..n]).None?
  {
  }

  // ---- Matching ----

  function DotFreeLen(s: string): (n: nat)
    ensures n <= |s| && '.' !in s[..n] && (n < |s| ==> s[n] == '.')
  {
    IndexOf(s, '.')
  }

  /** The compiled pattern `^...$`, each placeholder `[^.]+`: greedy, giving back one character at a
      time. `$` also stands before a final newline. */
  function Match(parts: seq<Part>, s: string): Option<Values>
    decreases |parts|, 0
  {
    if parts == [] then if s == "" || s == "\n" then Some(map[]) else None
    else
      match parts[0]
      case Lit(text) => if text <= s then Match(parts[1..], s[|text|..]) else None
      case Hole(name) => Give(name, parts[1..], s, DotFreeLen(s))
  }

  function Give(name: string, rest: seq<Part>, s: string, n: nat): Option<Values>
    requires n <= |s|
    decreases |rest| + 1, 0, n
  {
    if n == 0 then None
    else
      match Match(rest, s[n..])
      case Some(m) => Some(m[name := s[..n]])
      case None => Give(name, rest, s, n - 1)
  }

  function Names(parts: seq<Part>): set<string> {
    set p | p in parts && p.Hole? :: p.name
  }

  /** No placeholder name twice: otherwise the pattern does not compile. */
  predicate DistinctNames(parts: seq<Part>) {
    forall i, j :: 0 <= i < j < |parts| && parts[i].Hole? && parts[j].Hole? ==> parts[i].name != parts[j].name
  }

  predicate Fits(parts: seq<Part>, v: Values) {
    forall n :: n in Names(parts) ==> n in v && v[n] != "" && '.' !in v[n]
  }

  function Render(parts: seq<Part>, v: Values): string
    requires Names(parts) <= v.Keys
  {
    if parts == [] then ""
    else
      assert Names(parts[1..]) <= Names(parts);
      (match parts[0] case Lit(text) => text case Hole(name) => NameInParts(parts); v[name])
      + Render(parts[1..], v)
  }

  lemma NameInParts(parts: seq<Part>)
    ensures parts != [] && parts[0].Hole? ==> parts[0].name in Names(parts)
  {
  }

  lemma NamesCons(parts: seq<Part>)
    requires parts != []
    ensures Names(parts) == Names(parts[1..]) + if parts[0].Hole? then {parts[0].name} else {}
  {
  }

  /** Values the template does not name do not show. */
  lemma {:induction false} RenderIgnores(parts: seq<Part>, v: Values, name: string, value: string)
    requires Names(parts) <= v.Keys && name !in Names(parts)
    ensures Render(parts, v[name := value]) == Render(parts, v)
  {
    if parts != [] {
      NamesCons(parts);
      RenderIgnores(parts[1..], v, name, value);
    }
  }

  /** A match is a rendering: its captures are non-empty, dot-free and spell the path. */
  lemma {:induction false} MatchIsRendering(parts: seq<Part>, s: string)
    requires DistinctNames(parts) && Match(parts, s).Some?
    ensures
      var m := Match(parts, s).value;
      && m.Keys == Names(parts) && Fits(parts, m)
      && (Render(parts, m) == s || Render(parts, m) + "\n" == s)
    decreases |parts|, 0
  {
    hide Give, Render, Names, DistinctNames, Fits, DotFreeLen;
    if parts == [] {
      EmptyRenders(Match(parts, s).value);
    } else {
      match parts[0]
      case Lit(text) =>
        LaterDistinct(parts);
        MatchIsRendering(parts[1..], s[|text|..]);
        LiteralRenders(parts, Match(parts, s).value, s);
      case Hole(name) => GiveIsRendering(parts, s, DotFreeLen(s));
    }
  }

  lemma EmptyRenders(m: Values)
    ensures Names([]) == {} && Fits([], m) && Render([], m) == ""
  {
  }

  lemma LaterDistinct(parts: seq<Part>)
    requires DistinctNames(parts) && parts != []
    ensures DistinctNames(parts[1..])
  {
  }

  lemma LiteralRenders(parts: seq<Part>, m: Values, s: string)
    requires parts != [] && parts[0].Lit? && parts[0].text <= s
    requires m.Keys == Names(parts[1..]) && Fits(parts[1..], m)
    requires
      var rest := s[|parts[0].text|..];
      Render(parts[1..], m) == rest || Render(parts[1..], m) + "\n" == rest
    ensures m.Keys == Names(parts) && Fits(parts, m)
    ensures Render(parts, m) == s || Render(parts, m) + "\n" == s
  {
  }

  lemma {:induction false} GiveIsRendering(parts: seq<Part>, s: string, n: nat)
    requires DistinctNames(parts) && parts != [] && parts[0].Hole?
    requires n <= DotFreeLen(s) && Give(parts[0].name, parts[1..], s, n).Some?
    ensures
      var m := Give(parts[0].name, parts[1..], s, n).value;
      && m.Keys == Names(parts) && Fits(parts, m)
      && (Render(parts, m) == s || Render(parts, m) + "\n" == s)
    decreases |parts[1..]| + 1, 0, n
  {
    hide Match, Render, Names, DistinctNames, Fits, DotFreeLen;
    var name, rest := parts[0].name, parts[1..];
    if Match(rest, s[n..]).Some? {
      FirstNameOnlyOnce(parts);
      MatchIsRendering(rest, s[n..]);
      HoleRenders(parts, Match(rest, s[n..]).value, s, n);
    } else {
      GiveIsRendering(parts, s, n - 1);
    }
  }

  lemma HoleRenders(parts: seq<Part>, m: Values, s: string, n: nat)
    requires parts != [] && parts[0].Hole? && parts[0].name !in Names(parts[1..])
    requires 0 < n <= DotFreeLen(s) && m.Keys == Names(parts[1..]) && Fits(parts[1..], m)
    requires Render(parts[1..], m) == s[n..] || Render(parts[1..], m) + "\n" == s[n..]
    ensures
      var full := m[parts[0].name := s[..n]];
      && full.Keys == Names(parts) && Fits(parts, full)
      && (Render(parts, full) == s || Render(parts, full) + "\n" == s)
  {
    hide IndexOf, Names;
    var name := parts[0].name;
    var full := m[name := s[..n]];
    NamesCons(parts);
    RenderIgnores(parts[1..], m, name, s[..n]);
    assert s == s[..n] + s[n..];
    assert '.' !in s[..n] by {
      assert s[..n] == s[..DotFreeLen(s)][..n];
    }
    assert Render(parts, full) == s[..n] + Render(parts[1..], m);
  }

  lemma FirstNameOnlyOnce(parts: seq<Part>)
    requires DistinctNames(parts) && parts != [] && parts[0].Hole?
    ensures parts[0].name !in Names(parts[1..]) && DistinctNames(parts[1..])
  {
  }

  /** Every rendering is matched, backtracking included. */
  lemma {:induction false} RenderingMatches(parts: seq<Part>, v: Values, s: string)
    requires Fits(parts, v) && (Render(parts, v) == s || Render(parts, v) + "\n" == s)
    ensures Match(parts, s).Some?
    decreases |parts|, 0
  {
    if parts != [] {
      NamesCons(parts);
      match parts[0]
      case Lit(text) =>
        assert s[|text|..] == Render(parts[1..], v) || s[|text|..] == Render(parts[1..], v) + "\n";
        RenderingMatches(parts[1..], v, s[|text|..]);
      case Hole(name) =>
        NameInParts(parts);
        var k := |v[name]|;
        assert s[..k] == v[name];
        assert s[k..] == Render(parts[1..], v) || s[k..] == Render(parts[1..], v) + "\n";
        RenderingMatches(parts[1..], v, s[k..]);
        DotFreePrefix(s, k);
        GiveReaches(name, parts[1..], s, DotFreeLen(s), k);
    }
  }

  lemma DotFreePrefix(s: string, k: nat)
    requires k <= |s| && '.' !in s[..k]
    ensures k <= DotFreeLen(s)
  {
  }

  lemma {:induction false} GiveReaches(name: string, rest: seq<Part>, s: string, n: nat, k: nat)
    requires 0 < k <= n <= |s| && Match(rest, s[k..]).Some?
    ensures Give(name, rest, s, n).Some?
    decreases n
  {
    if n > k {
      GiveReaches(name, rest, s, n - 1, k);
    }
  }

  // ---- One placeholder per dot segment ----

  /** Before the next placeholder there is a dot. */
  predicate DotComes(parts: seq<Part>) {
    if parts == [] then true
    else if parts[0].Hole? then false
    else '.' in parts[0].text || DotComes(parts[1..])
  }

  predicate OnePerSegment(parts: seq<Part>) {
    if parts == [] then true
    else (parts[0].Hole? ==> DotComes(parts[1..])) && OnePerSegment(parts[1..])
  }

  /** The literal text before the next placeholder. */
  function Fixed(parts: seq<Part>): string {
    if parts == [] || parts[0].Hole? then "" else parts[0].text + Fixed(parts[1..])
  }

  lemma {:induction false} RenderStartsFixed(parts: seq<Part>, v: Values)
    requires Names(parts) <= v.Keys && DotComes(parts)
    ensures Fixed(parts) <= Render(parts, v)
    ensures '.' !in Fixed(parts) ==> Render(parts, v) == Fixed(parts)
  {
    if parts != [] {
      NamesCons(parts);
      if DotComes(parts[1..]) {
        RenderStartsFixed(parts[1..], v);
      } else {
        FixedStarts(parts[1..], v);
      }
    }
  }

  lemma {:induction false} FixedStarts(parts: seq<Part>, v: Values)
    requires Names(parts) <= v.Keys
    ensures Fixed(parts) <= Render(parts, v)
  {
    if parts != [] && parts[0].Lit? {
      NamesCons(parts);
      FixedStarts(parts[1..], v);
    }
  }

  lemma {:induction false} IndexOfAppend(a: string, b: string)
    ensures '.' !in a ==> IndexOf(a + b, '.') == |a| + IndexOf(b, '.')
    ensures '.' in a ==> IndexOf(a + b, '.') == IndexOf(a, '.')
  {
    if a == "" {
      assert a + b == b;
    } else if a[0] != '.' {
      IndexOfAppend(a[1..], b);
      assert (a + b)[1..] == a[1..] + b;
      assert '.' in a <==> '.' in a[1..] by { assert a == [a[0]] + a[1..]; }
    }
  }

  /** The values of a rendering are determined by the path. */
  lemma {:induction false} RenderInjective(parts: seq<Part>, v: Values, w: Values)
    requires Fits(parts, v) && Fits(parts, w) && OnePerSegment(parts)
    requires Render(parts, v) == Render(parts, w)
    ensures forall n :: n in Names(parts) ==> v[n] == w[n]
  {
    if parts != [] {
      NamesCons(parts);
      var rest := parts[1..];
      if parts[0].Lit? {
        var text := parts[0].text;
        assert Render(parts, v)[|text|..] == Render(rest, v) && Render(parts, w)[|text|..] == Render(rest, w);
      } else {
        NameInParts(parts);
        var a, b := v[parts[0].name], w[parts[0].name];
        SameCut(a, Render(rest, v), b, Render(rest, w), rest, v, w);
        assert Render(parts, v)[..|a|] == a && Render(parts, w)[..|b|] == b;
        assert Render(parts, v)[|a|..] == Render(rest, v) && Render(parts, w)[|b|..] == Render(rest, w);
      }
      RenderInjective(rest, v, w);
    }
  }

  lemma SameCut(a: string, x: string, b: string, y: string, rest: seq<Part>, v: Values, w: Values)
    requires '.' !in a && '.' !in b && a + x == b + y
    requires Names(rest) <= v.Keys && Names(rest) <= w.Keys && DotComes(rest)
    requires x == Render(rest, v) && y == Render(rest, w)
    ensures |a| == |b|
  {
    hide Render, Names, Fixed, DotComes, IndexOf;
    RenderStartsFixed(rest, v);
    RenderStartsFixed(rest, w);
    IndexOfAppend(a, x);
    IndexOfAppend(b, y);
    if '.' in Fixed(rest) {
      FirstDotOfPrefix(Fixed(rest), x);
      FirstDotOfPrefix(Fixed(rest), y);
    }
  }

  lemma FirstDotOfPrefix(a: string, s: string)
    requires a <= s && '.' in a
    ensures IndexOf(s, '.') == IndexOf(a, '.')
  {
  }

  /** Matching inverts rendering: for a template with distinct placeholders, at most one to a dot
      segment, a path without a final newline matches with captures `v` exactly when it is the template
      rendered with the non-empty dot-free values `v`. */
  lemma MatchInvertsRender(parts: seq<Part>, path: string, v: Values)
    requires DistinctNames(parts) && OnePerSegment(parts) && v.Keys == Names(parts)
    requires path == "" || path[|path| - 1] != '\n'
    ensures Match(parts, path) == Some(v) <==> Fits(parts, v) && Render(parts, v) == path
  {
    if Match(parts, path).Some? {
      MatchIsRendering(parts, path);
      var m := Match(parts, path).value;
      NoNewline(Render(parts, m), path);
      if Fits(parts, v) && Render(parts, v) == path {
        RenderInjective(parts, v, m);
        assert v == m;
      }
    }
    if Fits(parts, v) && Render(parts, v) == path {
      RenderingMatches(parts, v, path);
    }
  }

  lemma NoNewline(s: string, path: string)
    requires path == "" || path[|path| - 1] != '\n'
    ensures s + "\n" != path
  {
  }

  /** Without the one-per-segment rule the match still is a rendering, only not the only one. */
  lemma MatchIffRenders(parts: seq<Part>, path: string)
    requires DistinctNames(parts)
    ensures Match(parts, path).Some? <==>
            exists v: Values :: Fits(parts, v) && (Render(parts, v) == path || Render(parts, v) + "\n" == path)
  {
    if Match(parts, path).Some? {
      MatchIsRendering(parts, path);
      var m := Match(parts, path).value;
      assert Fits(parts, m);
    } else {
      forall v: Values | Fits(parts, v)
        ensures Render(parts, v) != path && Render(parts, v) + "\n" != path
      {
        if Render(parts, v) == path || Render(parts, v) + "\n" == path {
          RenderingMatches(parts, v, path);
        }
      }
    }
  }

  // ---- The resolver ----

  datatype OutputSpec = OutputSpec(output: string, template: string, valueColumn: Option<string>,
                                   keyColumns: seq<string>)

  datatype Resolved = Resolved(output: string, valueColumn: Option<string>, keys: Values)

  datatype PatternError = RedefinedGroup

  function KeysOf(columns: seq<string>, m: Values): Values {
    map c | c in columns && c in m :: m[c]
  }

  /** `resolve_field_path` over a profile's declared outputs, in order. */
  function Resolve(outputs: seq<OutputSpec>, path: string): Result<Option<Resolved>, PatternError> {
    if outputs == [] then Ok(None)
    else
      var o := outputs[0];
      if o.template == "" then Resolve(outputs[1..], path)
      else
        var parts := Parts(o.template, 0);
        if !DistinctNames(parts) then Err(RedefinedGroup)
        else
          match Match(parts, path)
          case None => Resolve(outputs[1..], path)
          case Some(m) => Ok(Some(Resolved(o.output, o.valueColumn, KeysOf(o.keyColumns, m))))
  }

  /** The template renders to the path, or to all of it but a final newline, with the values `v`. */
  predicate Reaches(o: OutputSpec, v: Values, path: string) {
    var parts := Parts(o.template, 0);
    && o.template != "" && v.Keys == Names(parts) && Fits(parts, v)
    && (Render(parts, v) == path || Render(parts, v) + "\n" == path)
  }

  /** An output the resolver passes over: no template, or one that compiles and does not reach the path. */
  ghost predicate Passed(o: OutputSpec, path: string) {
    o.template == "" || (DistinctNames(Parts(o.template, 0)) && forall v: Values :: !Reaches(o, v, path))
  }

  /** A template naming a placeholder twice does not compile. */
  predicate Broken(o: OutputSpec) {
    o.template != "" && !DistinctNames(Parts(o.template, 0))
  }

  lemma MatchIffReaches(o: OutputSpec, path: string)
    requires o.template != "" && DistinctNames(Parts(o.template, 0))
    ensures
      var m := Match(Parts(o.template, 0), path);
      if m.Some? then Reaches(o, m.value, path) else Passed(o, path)
  {
    hide Match, Render, Names, DistinctNames, Fits, Parts;
    var parts := Parts(o.template, 0);
    if Match(parts, path).Some? {
      MatchIsRendering(parts, path);
    } else {
      forall v: Values
        ensures !Reaches(o, v, path)
      {
        if Reaches(o, v, path) { RenderingMatches(parts, v, path); }
      }
    }
  }

  ghost predicate FirstAt(outputs: seq<OutputSpec>, path: string, i: nat) {
    i < |outputs| && forall j :: 0 <= j < i ==> Passed(outputs[j], path)
  }

  /** Output `i` answers, with the key columns that one rendering of the path fixes. */
  ghost predicate Answers(outputs: seq<OutputSpec>, path: string, r: Resolved, i: nat, v: Values) {
    && FirstAt(outputs, path, i) && !Broken(outputs[i]) && Reaches(outputs[i], v, path)
    && r.output == outputs[i].output && r.valueColumn == outputs[i].valueColumn
    && (forall c :: c in r.keys <==> c in outputs[i].keyColumns && c in v) && (forall c :: c in r.keys ==> r.keys[c] == v[c])
  }

  /** For every grammar and every path: the resolver answers with the first output whose template reaches the
      path, and with the key columns of such a rendering; with None exactly if it passes over all outputs;
      and it fails exactly if it comes to a template that does not compile. */
  lemma {:induction false} ResolveFindsFirst(outputs: seq<OutputSpec>, path: string)
    ensures
      var r := Resolve(outputs, path);
      && (r == Ok(None) <==> forall o :: o in outputs ==> Passed(o, path))
      && (r.Err? <==> exists i: nat :: FirstAt(outputs, path, i) && Broken(outputs[i]))
      && (r.Ok? && r.value.Some? ==> exists i: nat, v :: Answers(outputs, path, r.value.value, i, v))
  {
    hide Match, Render, Names, DistinctNames, Fits, Parts, KeysOf, Reaches;
    if outputs != [] {
      var o := outputs[0];
      var r := Resolve(outputs, path);
      assert o in outputs;
      if Broken(o) {
        assert FirstAt(outputs, path, 0) && !Passed(o, path);
      } else if o.template != "" && Match(Parts(o.template, 0), path).Some? {
        MatchIffReaches(o, path);
        FirstAnswers(outputs, path, Match(Parts(o.template, 0), path).value);
      } else {
        if o.template != "" { MatchIffReaches(o, path); }
        ResolveFindsFirst(outputs[1..], path);
        LaterOutput(outputs, path);
      }
    }
  }

  lemma FirstAnswers(outputs: seq<OutputSpec>, path: string, v: Values)
    requires outputs != [] && !Broken(outputs[0]) && Reaches(outputs[0], v, path)
    ensures
      var o := outputs[0];
      && Answers(outputs, path, Resolved(o.output, o.valueColumn, KeysOf(o.keyColumns, v)), 0, v)
      && !Passed(o, path) && !exists i: nat :: FirstAt(outputs, path, i) && Broken(outputs[i])
  {
    hide DistinctNames, Parts, Names, Fits, Render;
  }

  lemma LaterOutput(outputs: seq<OutputSpec>, path: string)
    requires outputs != [] && Passed(outputs[0], path) && !Broken(outputs[0])
    ensures (forall o :: o in outputs[1..] ==> Passed(o, path)) <==> forall o :: o in outputs ==> Passed(o, path)
    ensures (exists i: nat :: FirstAt(outputs[1..], path, i) && Broken(outputs[1..][i])) <==>
            exists i: nat :: FirstAt(outputs, path, i) && Broken(outputs[i])
    ensures forall r, i: nat, v :: Answers(outputs[1..], path, r, i, v) ==> Answers(outputs, path, r, i + 1, v)
  {
    hide Passed, Broken, KeysOf, Reaches;
    var rest := outputs[1..];
    assert outputs == [outputs[0]] + rest;
    forall i: nat
      ensures FirstAt(rest, path, i) <==> FirstAt(outputs, path, i + 1)
    {
      assert forall j :: 0 <= j < |rest| ==> rest[j] == outputs[j + 1];
      if FirstAt(outputs, path, i + 1) {
        assert forall j :: 0 <= j < i ==> Passed(rest[j], path);
      }
    }
    if i: nat :| FirstAt(outputs, path, i) && Broken(outputs[i]) {
      assert FirstAt(rest, path, i - 1) && Broken(rest[i - 1]);
    }
  }

  /** With at most one placeholder to a segment, and no trailing newline, only one rendering fits. */
  lemma AnswerIsUnique(o: OutputSpec, path: string, v: Values, w: Values)
    requires OnePerSegment(Parts(o.template, 0)) && (path == "" || path[|path| - 1] != '\n')
    requires Reaches(o, v, path) && Reaches(o, w, path)
    ensures v == w
  {
    hide Match, Render, Names, DistinctNames, Fits, Parts, OnePerSegment;
    var parts := Parts(o.template, 0);
    NoNewline(Render(parts, v), path);
    NoNewline(Render(parts, w), path);
    RenderInjective(parts, v, w);
  }
}
