/**
 The structural repair phase: foreign equality operators and import lines become Osty's, at the token
 level, as edits for the right-to-left applier.
 */
module Structural {

  import opened Edits
  import opened Tokens
  import opened Wrappers

  // ---- Significant tokens ----

  /** The first token from `i` on that is not a newline. */
  function NextSignificant(toks: seq<Token>, i: nat): (r: Option<nat>)
    ensures r.Some? ==> i <= r.value < |toks| && toks[r.value].kind != Newline
    ensures forall k :: i <= k < |toks| && (r.None? || k < r.value) ==> toks[k].kind == Newline
    decreases |toks| - i
  {
    if i >= |toks| then None else if toks[i].kind != Newline then Some(i) else NextSignificant(toks, i + 1)
  }

  method NextSignificantIndex(toks: seq<Token>, start: nat) returns (r: Option<nat>)
    ensures r == NextSignificant(toks, start)
  {
    var i := start;
    while i < |toks|
      invariant start <= i && NextSignificant(toks, start) == NextSignificant(toks, i)
    {
      if toks[i].kind != Newline {
        return Some(i);
      }
      i := i + 1;
    }
    return None;
  }

  /** The kind of the last token below `i` that is not a newline. */
  function PrevKind(toks: seq<Token>, i: nat): (k: Kind)
    requires i <= |toks|
    ensures k != Newline
  {
    if i == 0 then Eof else if toks[i - 1].kind != Newline then toks[i - 1].kind else PrevKind(toks, i - 1)
  }

  method PrevSignificantKind(toks: seq<Token>, n: nat) returns (k: Kind)
    requires n <= |toks|
    ensures k == PrevKind(toks, n)
  {
    var i := n;
    while i > 0
      invariant 0 <= i <= n && PrevKind(toks, n) == PrevKind(toks, i)
    {
      i := i - 1;
      if toks[i].kind != Newline {
        return toks[i].kind;
      }
    }
    return Eof;
  }

  function AtStart(toks: seq<Token>, i: nat): bool
    requires i <= |toks|
  {
    PrevKind(toks, i) in {Eof, Newline, LBrace, RBrace}
  }

  /** Token `k` is the last one below `i` that is not a newline. */
  ghost predicate LastSignificant(toks: seq<Token>, k: nat, i: nat) {
    k < i <= |toks| && toks[k].kind != Newline && forall m :: k < m < i ==> toks[m].kind == Newline
  }

  lemma {:induction false} PrevKindIs(toks: seq<Token>, i: nat)
    requires i <= |toks|
    ensures (exists k: nat :: LastSignificant(toks, k, i) && PrevKind(toks, i) == toks[k].kind)
         || (PrevKind(toks, i) == Eof && forall m :: 0 <= m < i ==> toks[m].kind == Newline)
  {
    if i > 0 {
      if toks[i - 1].kind == Newline {
        PrevKindIs(toks, i - 1);
        if k: nat :| LastSignificant(toks, k, i - 1) && PrevKind(toks, i - 1) == toks[k].kind {
          assert LastSignificant(toks, k, i);
        }
      } else {
        assert LastSignificant(toks, i - 1, i);
      }
    }
  }

  /** A statement starts only at the front of the file and behind a brace or file end: newlines are looked through. */
  lemma {:induction false} AtStartIff(toks: seq<Token>, i: nat)
    requires i <= |toks|
    ensures AtStart(toks, i) <==> forall k: nat :: LastSignificant(toks, k, i) ==> toks[k].kind in {Eof, LBrace, RBrace}
  {
    PrevKindIs(toks, i);
    forall k: nat, m: nat | LastSignificant(toks, k, i) && LastSignificant(toks, m, i)
      ensures k == m
    {
    }
  }

  // ---- Dotted paths ----

  /** The names of a path, and the token it ends with. */
  datatype Path = Path(names: seq<string>, last: nat)

  /** The significant token after token `i`, if it is on the line. */
  function Ahead(toks: seq<Token>, i: int, line: int): (r: Option<nat>)
    requires -1 <= i
    ensures r.Some? ==> i < r.value < |toks| && toks[r.value].kind != Newline && toks[r.value].line == line
  {
    var r := NextSignificant(toks, i + 1);
    if r.Some? && toks[r.value].line == line then r else None
  }

  /** The path that starts with token `i`. */
  function PathFrom(toks: seq<Token>, i: nat, line: int): (p: Option<Path>)
    requires i < |toks|
    ensures p.Some? ==> i <= p.value.last < |toks| && p.value.names != []
    decreases |toks| - i
  {
    if toks[i].kind != Ident then None
    else
      var dot := Ahead(toks, i, line);
      if dot.None? || toks[dot.value].kind != Dot then Some(Path([toks[i].value], i))
      else
        var next := Ahead(toks, dot.value, line);
        if next.None? then None else Extend([toks[i].value], PathFrom(toks, next.value, line))
  }

  function Extend(names: seq<string>, p: Option<Path>): Option<Path> {
    match p
    case None => None
    case Some(Path(more, last)) => Some(Path(names + more, last))
  }

  lemma {:induction false} ExtendTwice(a: seq<string>, b: seq<string>, p: Option<Path>)
    ensures Extend(a, Extend(b, p)) == Extend(a + b, p) && Extend([], p) == p
  {
    match p
    case None =>
    case Some(Path(names, _)) => assert [] + names == names && a + (b + names) == (a + b) + names;
  }

  /** Names and dots in turn, one significant token after another on one line, with no dot to follow. */
  ghost predicate Spells(toks: seq<Token>, ks: seq<nat>, line: int) {
    && |ks| % 2 == 1
    && (forall m :: 0 <= m < |ks| ==> ks[m] < |toks| && toks[ks[m]].kind == (if m % 2 == 0 then Ident else Dot))
    && (forall m :: 0 <= m < |ks| - 1 ==> Ahead(toks, ks[m], line) == Some(ks[m + 1]))
    && var dot := Ahead(toks, ks[|ks| - 1], line); dot.None? || toks[dot.value].kind != Dot
  }

  function Evens(toks: seq<Token>, ks: seq<nat>): seq<string>
    requires forall m :: 0 <= m < |ks| ==> ks[m] < |toks|
  {
    if ks == [] then [] else if |ks| == 1 then [toks[ks[0]].value] else [toks[ks[0]].value] + Evens(toks, ks[2..])
  }

  /** A path found is spelled out in the tokens. */
  lemma {:induction false} PathSpelled(toks: seq<Token>, i: nat, line: int) returns (ks: seq<nat>)
    requires i < |toks| && PathFrom(toks, i, line).Some?
    ensures Spells(toks, ks, line) && ks != [] && ks[0] == i
    ensures PathFrom(toks, i, line) == Some(Path(Evens(toks, ks), ks[|ks| - 1]))
    decreases |toks| - i
  {
    hide Ahead;
    var dot := Ahead(toks, i, line);
    if dot.None? || toks[dot.value].kind != Dot {
      ks := [i];
    } else {
      var next := Ahead(toks, dot.value, line);
      var rest := PathSpelled(toks, next.value, line);
      ks := SpellMore(toks, i, dot.value, rest, line);
    }
  }

  lemma {:induction false} SpellMore(toks: seq<Token>, i: nat, dot: nat, rest: seq<nat>, line: int) returns (ks: seq<nat>)
    requires i < |toks| && dot < |toks| && toks[i].kind == Ident && toks[dot].kind == Dot
    requires Spells(toks, rest, line) && Ahead(toks, i, line) == Some(dot) && Ahead(toks, dot, line) == Some(rest[0])
    ensures Spells(toks, ks, line) && ks == [i, dot] + rest
    ensures Evens(toks, ks) == [toks[i].value] + Evens(toks, rest)
  {
    hide Ahead;
    ks := [i, dot] + rest;
    assert ks[2..] == rest;
    assert forall m :: 2 <= m < |ks| ==> ks[m] == rest[m - 2];
  }

  /** A path spelled out in the tokens is found. */
  lemma {:induction false} SpelledFound(toks: seq<Token>, ks: seq<nat>, line: int)
    requires Spells(toks, ks, line)
    ensures PathFrom(toks, ks[0], line) == Some(Path(Evens(toks, ks), ks[|ks| - 1]))
    decreases |ks|
  {
    hide Ahead;
    if |ks| > 1 {
      assert Ahead(toks, ks[0], line) == Some(ks[1]) && Ahead(toks, ks[1], line) == Some(ks[1 + 1]);
      var rest := ks[2..];
      assert forall m :: 0 <= m < |rest| ==> rest[m] == ks[m + 2];
      SpelledFound(toks, rest, line);
    }
  }

  function Join(names: seq<string>): string {
    if names == [] then "" else if |names| == 1 then names[0] else names[0] + "." + Join(names[1..])
  }

  lemma {:induction false} PathStep(toks: seq<Token>, i: nat, line: int)
    requires i < |toks| && toks[i].kind == Ident
    ensures var dot := Ahead(toks, i, line);
      if dot.None? || toks[dot.value].kind != Dot then PathFrom(toks, i, line) == Some(Path([toks[i].value], i))
      else
        var next := Ahead(toks, dot.value, line);
        PathFrom(toks, i, line) == if next.None? then None else Extend([toks[i].value], PathFrom(toks, next.value, line))
  {
  }

  lemma {:induction false} AheadIs(toks: seq<Token>, i: int, line: int)
    requires -1 <= i
    ensures var r := NextSignificant(toks, i + 1); Ahead(toks, i, line) == if r.Some? && toks[r.value].line == line then r else None
  {
  }

  /** Reads a dotted path from `start` on: its names, and the token it ends with. */
  method ConsumeDottedPath(toks: seq<Token>, start: nat, line: int) returns (p: Option<Path>)
    ensures p == PathAfter(toks, start, line)
  {
    hide NextSignificant, PathFrom, Ahead;
    var first := NextSignificantIndex(toks, start);
    AheadIs(toks, start - 1, line);
    if first.Some? {
      NoPath(toks, first.value, line);
    }
    if first.None? || toks[first.value].line != line || toks[first.value].kind != Ident {
      return None;
    }
    p := PathNames(toks, first.value, line);
  }

  /** The loop of `ConsumeDottedPath`, from the path's first name on. */
  method PathNames(toks: seq<Token>, first: nat, line: int) returns (p: Option<Path>)
    requires first < |toks|
    ensures p == PathFrom(toks, first, line)
  {
    hide NextSignificant, PathFrom, Ahead;
    var idx := first;
    var names: seq<string> := [];
    ExtendTwice([], [], PathFrom(toks, idx, line));
    while true
      invariant idx < |toks|
      invariant PathFrom(toks, first, line) == Extend(names, PathFrom(toks, idx, line))
      decreases |toks| - idx
    {
      NoPath(toks, idx, line);
      if toks[idx].kind != Ident {
        return None;
      }
      PathStep(toks, idx, line);
      ghost var was := names;
      names := names + [toks[idx].value];
      var dot := NextSignificantIndex(toks, idx + 1);
      AheadIs(toks, idx, line);
      if dot.None? || toks[dot.value].line != line || toks[dot.value].kind != Dot {
        return Some(Path(names, idx));
      }
      var next := NextSignificantIndex(toks, dot.value + 1);
      AheadIs(toks, dot.value, line);
      if next.None? || toks[next.value].line != line {
        return None;
      }
      ExtendTwice(was, [toks[idx].value], PathFrom(toks, next.value, line));
      idx := next.value;
    }
  }

  lemma {:induction false} NoPath(toks: seq<Token>, i: nat, line: int)
    requires i < |toks|
    ensures toks[i].kind != Ident ==> PathFrom(toks, i, line) == None
  {
  }

  /** The path, if any, that the next significant token starts. */
  function PathAfter(toks: seq<Token>, start: nat, line: int): (p: Option<Path>)
    ensures p.Some? ==> start <= p.value.last < |toks|
  {
    var first := Ahead(toks, start - 1, line);
    if first.None? then None else PathFrom(toks, first.value, line)
  }

  // ---- Import lines ----

  /** What replaces a token range that starts at a token. */
  datatype Site = Site(last: nat, text: string, kind: string)

  function ImportSite(toks: seq<Token>, i: nat): Option<Site>
    requires i < |toks|
  {
    var next := Ahead(toks, i, toks[i].line);
    if next.Some? && toks[next.value].kind in {Ident, StringLit} then Some(Site(i, "use", "import_keyword")) else None
  }

  function UseText(module_: string, names: seq<string>, alias: string): string {
    "use " + module_ + "." + Join(names) + if alias != "" then " as " + alias else ""
  }

  /** What follows the imported path: an optional alias, and then the end of the line. */
  function AliasSite(toks: seq<Token>, module_: string, path: Path, line: int): Option<Site>
    requires path.last < |toks|
  {
    var word := Ahead(toks, path.last, line);
    if word.None? then Some(Site(path.last, UseText(module_, path.names, ""), "from_import"))
    else if toks[word.value].kind != Ident || toks[word.value].value != "as" then None
    else
      var alias := Ahead(toks, word.value, line);
      if alias.None? || toks[alias.value].kind != Ident || Ahead(toks, alias.value, line).Some? then None
      else Some(Site(alias.value, UseText(module_, path.names, toks[alias.value].value), "from_import"))
  }

  function FromSite(toks: seq<Token>, i: nat): Option<Site>
    requires i < |toks|
  {
    var line := toks[i].line;
    match PathAfter(toks, i + 1, line)
    case None => None
    case Some(path) =>
      var word := Ahead(toks, path.last, line);
      if word.None? || toks[word.value].kind != Ident || toks[word.value].value != "import" then None
      else
        match PathAfter(toks, word.value + 1, line)
        case None => None
        case Some(imported) => AliasSite(toks, Join(path.names), imported, line)
  }

  method FromImportRewrite(toks: seq<Token>, i: nat) returns (site: Option<Site>)
    requires i < |toks|
    ensures site == FromSite(toks, i)
  {
    hide NextSignificant, PathAfter, Join, AliasSite;
    var line := toks[i].line;
    var path := ConsumeDottedPath(toks, i + 1, line);
    if path.None? {
      return None;
    }
    var word := NextSignificantIndex(toks, path.value.last + 1);
    if word.None? || toks[word.value].line != line || toks[word.value].kind != Ident || toks[word.value].value != "import" {
      return None;
    }
    var imported := ConsumeDottedPath(toks, word.value + 1, line);
    if imported.None? {
      return None;
    }
    site := AliasRewrite(toks, Join(path.value.names), imported.value, line);
  }

  method AliasRewrite(toks: seq<Token>, module_: string, imported: Path, line: int) returns (site: Option<Site>)
    requires imported.last < |toks|
    ensures site == AliasSite(toks, module_, imported, line)
  {
    hide NextSignificant, UseText;
    var last, alias := imported.last, "";
    var asWord := NextSignificantIndex(toks, last + 1);
    if asWord.Some? && toks[asWord.value].line == line {
      if toks[asWord.value].kind != Ident || toks[asWord.value].value != "as" {
        return None;
      }
      var name := NextSignificantIndex(toks, asWord.value + 1);
      if name.None? || toks[name.value].line != line || toks[name.value].kind != Ident {
        return None;
      }
      alias := toks[name.value].value;
      last := name.value;
      var extra := NextSignificantIndex(toks, last + 1);
      if extra.Some? && toks[extra.value].line == line {
        return None;
      }
    }
    return Some(Site(last, UseText(module_, imported.names, alias), "from_import"));
  }

  /**
   An import line: `from`, a path, `import`, a path, and then either the end of the line or `as`, a name
   and the end of the line.
   */
  ghost predicate ImportLine(toks: seq<Token>, i: nat, path: Path, imported: Path, alias: Option<nat>)
    requires i < |toks| && path.last < |toks| && imported.last < |toks| && (alias.Some? ==> alias.value < |toks|)
  {
    var line := toks[i].line;
    && PathAfter(toks, i + 1, line) == Some(path)
    && Word(toks, Ahead(toks, path.last, line), "import")
    && PathAfter(toks, Ahead(toks, path.last, line).value + 1, line) == Some(imported)
    && match alias
       case None => Ahead(toks, imported.last, line) == None
       case Some(name) =>
         && Word(toks, Ahead(toks, imported.last, line), "as")
         && Ahead(toks, Ahead(toks, imported.last, line).value, line) == alias && toks[name].kind == Ident
         && Ahead(toks, name, line) == None
  }

  predicate Word(toks: seq<Token>, i: Option<nat>, text: string) {
    i.Some? && i.value < |toks| && toks[i.value].kind == Ident && toks[i.value].value == text
  }

  ghost predicate Inside(toks: seq<Token>, path: Path, imported: Path, alias: Option<nat>) {
    path.last < |toks| && imported.last < |toks| && (alias.Some? ==> alias.value < |toks|)
  }

  function ImportEnd(imported: Path, alias: Option<nat>): nat {
    match alias case None => imported.last case Some(name) => name
  }

  function AliasText(toks: seq<Token>, alias: Option<nat>): string {
    if alias.Some? && alias.value < |toks| then toks[alias.value].value else ""
  }

  /** The site spans an import line with nothing else on it, and its text joins the two paths. */
  ghost predicate FromImport(toks: seq<Token>, i: nat, site: Site)
    requires i < |toks|
  {
    exists path, imported, alias ::
      && Inside(toks, path, imported, alias) && ImportLine(toks, i, path, imported, alias)
      && site.last == ImportEnd(imported, alias) && site.kind == "from_import"
      && site.text == "use " + Join(path.names) + "." + Join(imported.names)
                      + if AliasText(toks, alias) == "" then "" else " as " + AliasText(toks, alias)
  }

  /** A rewrite is found exactly on such a line. */
  lemma {:induction false} FromSiteIff(toks: seq<Token>, i: nat, site: Site)
    requires i < |toks|
    ensures FromSite(toks, i) == Some(site) <==> FromImport(toks, i, site)
  {
    hide Ahead, PathAfter, Join;
    if FromSite(toks, i) == Some(site) {
      var line := toks[i].line;
      var path := PathAfter(toks, i + 1, line).value;
      var imported := PathAfter(toks, Ahead(toks, path.last, line).value + 1, line).value;
      var word := Ahead(toks, imported.last, line);
      var alias := if word.None? then None else Ahead(toks, word.value, line);
      assert Inside(toks, path, imported, alias) && ImportLine(toks, i, path, imported, alias);
    }
  }

  /** Paths are joined with dots. */
  lemma {:induction false} JoinConcat(a: seq<string>, b: seq<string>)
    requires a != [] && b != []
    ensures Join(a + b) == Join(a) + "." + Join(b) && forall x: string :: Join([x]) == x
  {
    assert (a + b)[1..] == a[1..] + b;
    if |a| > 1 {
      JoinConcat(a[1..], b);
    }
  }

  /** What, if anything, is rewritten from token `i` on. */
  function SiteAt(toks: seq<Token>, i: nat): Option<Site>
    requires i < |toks|
  {
    var t := toks[i];
    if t.kind == EqEq || t.kind == NotEq then
      var next := NextSignificant(toks, i + 1);
      if next.Some? && toks[next.value].kind == Assign && toks[next.value].start == t.end then
        Some(Site(next.value, if t.kind == EqEq then "==" else "!=", if t.kind == EqEq then "strict_equality" else "strict_inequality"))
      else None
    else if t.kind != Ident || !AtStart(toks, i) then None
    else if t.value == "import" then ImportSite(toks, i)
    else if t.value == "from" then FromSite(toks, i)
    else None
  }

  // ---- Sites, told on the tokens ----

  /** An equality sign with an assignment sign right behind it. */
  ghost predicate StrictEquality(toks: seq<Token>, i: nat, site: Site)
    requires i < |toks|
  {
    && Adjacent(toks, i, site.last) && toks[site.last].kind == Assign && toks[site.last].start == toks[i].end
    && ((toks[i].kind == EqEq && site.text == "==" && site.kind == "strict_equality")
        || (toks[i].kind == NotEq && site.text == "!=" && site.kind == "strict_inequality"))
  }

  /** A word where a statement starts: nothing but newlines between it and the front, a brace or a file end. */
  ghost predicate StartsStatement(toks: seq<Token>, i: nat, text: string)
    requires i < |toks|
  {
    toks[i].kind == Ident && toks[i].value == text && forall k: nat :: LastSignificant(toks, k, i) ==> toks[k].kind in {Eof, LBrace, RBrace}
  }

  /** An `import` with a name or a string next on its line. */
  ghost predicate ImportKeyword(toks: seq<Token>, i: nat, site: Site)
    requires i < |toks|
  {
    && StartsStatement(toks, i, "import") && site == Site(i, "use", "import_keyword")
    && exists j: nat :: Adjacent(toks, i, j) && toks[j].kind in {Ident, StringLit} && toks[j].line == toks[i].line
  }

  lemma {:induction false} AdjacentIsNext(toks: seq<Token>, i: nat, j: nat)
    requires i < |toks|
    ensures Adjacent(toks, i, j) && toks[j].kind != Newline <==> NextSignificant(toks, i + 1) == Some(j)
  {
  }

  lemma {:induction false} ImportSiteIff(toks: seq<Token>, i: nat, site: Site)
    requires i < |toks|
    ensures ImportSite(toks, i) == Some(site) <==>
      && site == Site(i, "use", "import_keyword")
      && exists j: nat :: Adjacent(toks, i, j) && toks[j].kind in {Ident, StringLit} && toks[j].line == toks[i].line
  {
    var next := NextSignificant(toks, i + 1);
    if next.Some? {
      AdjacentIsNext(toks, i, next.value);
    }
    forall j: nat | Adjacent(toks, i, j) && toks[j].kind in {Ident, StringLit}
      ensures next == Some(j)
    {
      AdjacentIsNext(toks, i, j);
    }
  }

  /** What is rewritten: strict equality signs, `import` words and `from` lines, words only where a statement starts. */
  lemma {:induction false} SiteIff(toks: seq<Token>, i: nat, site: Site)
    requires i < |toks|
    ensures SiteAt(toks, i) == Some(site) <==>
      || StrictEquality(toks, i, site) || ImportKeyword(toks, i, site)
      || (StartsStatement(toks, i, "from") && FromImport(toks, i, site))
  {
    hide FromSite, FromImport, ImportSite, AtStart, Adjacent, LastSignificant;
    AtStartIff(toks, i);
    ImportSiteIff(toks, i, site);
    FromSiteIff(toks, i, site);
    AdjacentIsNext(toks, i, site.last);
    if NextSignificant(toks, i + 1).Some? {
      AdjacentIsNext(toks, i, NextSignificant(toks, i + 1).value);
    }
    assert "import"[0] == 'i' && "from"[0] == 'f';
  }

  // ---- Sites lie apart ----

  /** From `i` to `j` there are only names, dots, assignments and newlines. */
  ghost predicate Plain(toks: seq<Token>, i: nat, j: nat) {
    forall k :: i <= k <= j && k < |toks| ==> toks[k].kind in {Ident, Dot, Newline, Assign}
  }

  /** A plain token and the next significant one, plain as well, have a plain range. */
  lemma {:induction false} AheadPlain(toks: seq<Token>, i: int, line: int)
    requires -1 <= i && Ahead(toks, i, line).Some? && toks[Ahead(toks, i, line).value].kind in {Ident, Dot, Assign}
    ensures Plain(toks, i + 1, Ahead(toks, i, line).value)
  {
  }

  lemma {:induction false} PlainJoins(toks: seq<Token>, i: nat, j: nat, k: nat)
    requires Plain(toks, i, j) && Plain(toks, j + 1, k)
    ensures Plain(toks, i, k)
  {
  }

  lemma {:induction false} PathPlain(toks: seq<Token>, i: nat, line: int)
    requires i < |toks| && PathFrom(toks, i, line).Some?
    ensures Plain(toks, i, PathFrom(toks, i, line).value.last) && toks[PathFrom(toks, i, line).value.last].kind == Ident
    decreases |toks| - i
  {
    assert Plain(toks, i, i);
    hide Ahead, PathFrom, Plain;
    NoPath(toks, i, line);
    PathStep(toks, i, line);
    var dot := Ahead(toks, i, line);
    if dot.Some? && toks[dot.value].kind == Dot {
      var next := Ahead(toks, dot.value, line).value;
      PathPlain(toks, next, line);
      NoPath(toks, next, line);
      AheadPlain(toks, i, line);
      AheadPlain(toks, dot.value, line);
      var last := PathFrom(toks, next, line).value.last;
      PlainJoins(toks, i, i, dot.value);
      PlainJoins(toks, i, dot.value, next);
      PlainExtends(toks, i, next, last);
    }
  }

  lemma {:induction false} PlainExtends(toks: seq<Token>, i: nat, j: nat, k: nat)
    requires Plain(toks, i, j) && Plain(toks, j, k)
    ensures Plain(toks, i, k)
  {
  }

  lemma {:induction false} PathAfterPlain(toks: seq<Token>, start: nat, line: int)
    requires PathAfter(toks, start, line).Some?
    ensures Plain(toks, start, PathAfter(toks, start, line).value.last)
    ensures toks[PathAfter(toks, start, line).value.last].kind == Ident
  {
    hide Ahead, PathFrom, Plain;
    var first := Ahead(toks, start - 1, line).value;
    NoPath(toks, first, line);
    AheadPlain(toks, start - 1, line);
    PathPlain(toks, first, line);
    PlainExtends(toks, start, first, PathFrom(toks, first, line).value.last);
  }

  lemma {:induction false} AliasPlain(toks: seq<Token>, module_: string, path: Path, line: int)
    requires path.last < |toks| && toks[path.last].kind == Ident && AliasSite(toks, module_, path, line).Some?
    ensures var last := AliasSite(toks, module_, path, line).value.last;
      path.last <= last < |toks| && Plain(toks, path.last, last) && toks[last].kind == Ident
  {
  }

  lemma {:induction false} FromPlain(toks: seq<Token>, i: nat)
    requires i < |toks| && FromSite(toks, i).Some?
    ensures i < FromSite(toks, i).value.last < |toks| && Plain(toks, i + 1, FromSite(toks, i).value.last)
    ensures toks[FromSite(toks, i).value.last].kind == Ident
  {
    hide Ahead, PathAfter, Join, Plain, AliasSite;
    var line := toks[i].line;
    var path := PathAfter(toks, i + 1, line).value;
    PathAfterPlain(toks, i + 1, line);
    var word := Ahead(toks, path.last, line).value;
    AheadPlain(toks, path.last, line);
    PathAfterPlain(toks, word + 1, line);
    var imported := PathAfter(toks, word + 1, line).value;
    AliasPlain(toks, Join(path.names), imported, line);
    PlainJoins(toks, i + 1, path.last, word);
    PlainJoins(toks, i + 1, word, imported.last);
    PlainExtends(toks, i + 1, imported.last, FromSite(toks, i).value.last);
  }

  /** Behind a plain token that is not a newline no statement starts, up to the end of the plain range. */
  lemma {:induction false} PlainNoStart(toks: seq<Token>, i: nat, j: nat, k: nat)
    requires i < k <= j < |toks| && toks[i].kind in {Ident, Dot, Assign} && Plain(toks, i, j)
    ensures !AtStart(toks, k)
  {
    if k > i + 1 && toks[k - 1].kind == Newline {
      PlainNoStart(toks, i, j, k - 1);
    }
  }

  /** No token inside a site starts another one. */
  lemma {:induction false} SitesApart(toks: seq<Token>, i: nat, j: nat)
    requires i < j < |toks| && SiteAt(toks, i).Some? && SiteAt(toks, j).Some?
    ensures SiteAt(toks, i).value.last < j
  {
    hide FromSite, NextSignificant;
    if toks[i].kind == Ident && toks[i].value == "from" {
      FromPlain(toks, i);
      var last := FromSite(toks, i).value.last;
      if j <= last {
        PlainNoStart(toks, i, last, j);
      }
    }
  }

  /** A site is a range of tokens that starts and ends with tokens of some width. */
  lemma {:induction false} SiteInside(toks: seq<Token>, i: nat)
    requires i < |toks| && SiteAt(toks, i).Some?
    ensures i <= SiteAt(toks, i).value.last < |toks|
    ensures toks[i].kind in {EqEq, NotEq, Ident} && toks[SiteAt(toks, i).value.last].kind in {Assign, Ident}
  {
    hide FromSite;
    if toks[i].kind == Ident && toks[i].value == "from" {
      FromPlain(toks, i);
    }
  }

  // ---- The phase ----

  function SiteChange(t: Token, site: Site): Change {
    Change(t.line, t.column, site.kind)
  }

  function SiteEdit(toks: seq<Token>, i: nat, site: Site): Edit
    requires i < |toks| && site.last < |toks|
  {
    Edit(toks[i].start, toks[site.last].end, site.text, SiteChange(toks[i], site))
  }

  /** The edits of the sites among the first `n` tokens. */
  ghost function EditsBelow(toks: seq<Token>, n: nat): seq<Edit>
    requires n <= |toks|
  {
    if n == 0 then []
    else
      var site := SiteAt(toks, n - 1);
      if site.Some? && site.value.last < |toks| then EditsBelow(toks, n - 1) + [SiteEdit(toks, n - 1, site.value)]
      else EditsBelow(toks, n - 1)
  }

  /** An edit is made exactly where a site is: over its tokens, with its text. */
  ghost predicate EditsSite(toks: seq<Token>, i: nat, e: Edit)
    requires i < |toks|
  {
    exists site :: SiteAt(toks, i) == Some(site) && site.last < |toks|
      && e.start == toks[i].start && e.end == toks[site.last].end && e.text == site.text
      && e.change == Change(toks[i].line, toks[i].column, site.kind)
  }

  lemma {:induction false} EditsBelowIff(toks: seq<Token>, n: nat, e: Edit)
    requires n <= |toks|
    ensures e in EditsBelow(toks, n) <==> exists i: nat :: i < n && EditsSite(toks, i, e)
  {
    hide SiteAt;
    if n > 0 {
      EditsBelowIff(toks, n - 1, e);
      assert EditsSite(toks, n - 1, e) <==>
        var site := SiteAt(toks, n - 1); site.Some? && site.value.last < |toks| && e == SiteEdit(toks, n - 1, site.value);
    }
  }

  /** Edits that ascend and lie apart, all of them before any site from token `n` on. */
  ghost predicate Apart(src: string, toks: seq<Token>, es: seq<Edit>, n: nat) {
    && (forall k :: 0 <= k < |es| ==> InBounds(|src|, es[k]) && es[k].start < es[k].end)
    && (forall k, m :: 0 <= k < m < |es| ==> es[k].end <= es[m].start)
    && (forall k, j :: 0 <= k < |es| && n <= j < |toks| && SiteAt(toks, j).Some? ==> es[k].end <= toks[j].start)
  }

  lemma {:induction false} ApartMore(src: string, toks: seq<Token>, es: seq<Edit>, i: nat)
    requires WellLexed(src, toks) && i < |toks| && Apart(src, toks, es, i) && SiteAt(toks, i).Some?
    ensures SiteAt(toks, i).value.last < |toks| && Apart(src, toks, es + [SiteEdit(toks, i, SiteAt(toks, i).value)], i + 1)
  {
    hide SiteAt;
    SiteInside(toks, i);
    var last := SiteAt(toks, i).value.last;
    forall j | i < j < |toks| && SiteAt(toks, j).Some?
      ensures toks[last].end <= toks[j].start
    {
      SitesApart(toks, i, j);
    }
  }

  lemma {:induction false} EditsApart(src: string, toks: seq<Token>, n: nat)
    requires WellLexed(src, toks) && n <= |toks|
    ensures Apart(src, toks, EditsBelow(toks, n), n)
  {
    hide SiteAt, Apart, WellLexed;
    if n == 0 {
      NoneApart(src, toks);
    } else {
      EditsApart(src, toks, n - 1);
      if SiteAt(toks, n - 1).Some? {
        ApartMore(src, toks, EditsBelow(toks, n - 1), n - 1);
      } else {
        ApartStill(src, toks, EditsBelow(toks, n - 1), n - 1);
      }
    }
  }

  lemma {:induction false} NoneApart(src: string, toks: seq<Token>)
    ensures Apart(src, toks, [], 0)
  {
  }

  lemma {:induction false} ApartStill(src: string, toks: seq<Token>, es: seq<Edit>, i: nat)
    requires Apart(src, toks, es, i)
    ensures Apart(src, toks, es, i + 1)
  {
  }

  /** Decides what, if anything, is rewritten from token `i` on. */
  method FindSite(toks: seq<Token>, i: nat) returns (site: Option<Site>)
    requires i < |toks|
    ensures site == SiteAt(toks, i)
  {
    var t := toks[i];
    if t.kind == EqEq || t.kind == NotEq {
      var next := NextSignificantIndex(toks, i + 1);
      if next.Some? && toks[next.value].kind == Assign && toks[next.value].start == t.end {
        return Some(Site(next.value, if t.kind == EqEq then "==" else "!=", if t.kind == EqEq then "strict_equality" else "strict_inequality"));
      }
      return None;
    }
    if t.kind != Ident {
      return None;
    }
    var prev := PrevSignificantKind(toks, i);
    if prev !in {Eof, Newline, LBrace, RBrace} {
      return None;
    }
    if t.value == "import" {
      var next := NextSignificantIndex(toks, i + 1);
      if next.Some? && toks[next.value].line == t.line && toks[next.value].kind in {Ident, StringLit} {
        return Some(Site(i, "use", "import_keyword"));
      }
      return None;
    }
    if t.value == "from" {
      site := FromImportRewrite(toks, i);
      return site;
    }
    return None;
  }

  /** Every site is rewritten, all at once, each is reported, and none is skipped. */
  method StructuralSource(src: string, toks: seq<Token>) returns (out: string, changes: seq<Change>, skipped: nat)
    requires WellLexed(src, toks)
    ensures var es := EditsBelow(toks, |toks|);
      Placed(|src|, 0, es) && out == Substitute(src, 0, es) && changes == Changes(es) && skipped == 0
  {
    hide SiteAt;
    var edits: seq<Edit> := [];
    changes := [];
    for i := 0 to |toks|
      invariant edits == EditsBelow(toks, i) && changes == Changes(edits)
    {
      var site := FindSite(toks, i);
      if site.Some? {
        SiteInside(toks, i);
        edits := edits + [SiteEdit(toks, i, site.value)];
        changes := changes + [SiteChange(toks[i], site.value)];
      }
    }
    EditsApart(src, toks, |toks|);
    AscendingApplied(src, edits);
    out, skipped := ApplyStructural(src, edits);
  }

  /** An import line below another one is left as it is. */
  lemma {:induction false} SecondImportMissed()
    ensures var toks := [
        Token(Ident, "import", 0, 6, 1, 1), Token(Ident, "a", 7, 8, 1, 8), Token(Newline, "", 8, 9, 1, 9),
        Token(Ident, "import", 9, 15, 2, 1), Token(Ident, "b", 16, 17, 2, 8)];
      SiteAt(toks, 0) == Some(Site(0, "use", "import_keyword")) && SiteAt(toks, 3) == None
  {
  }
}
