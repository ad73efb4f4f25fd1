/**
 * parseSections of linkermapviz/__init__.py: find the memory-map anchor
 * line, then scan the rest of the buffer with a cursor, building the
 * section -> contribution -> symbol tree.
 *
 * `Step` says what one turn of the outer `while True` loop does, `Scan`
 * iterates it, and the method `ParseSections` is the loop itself, proved
 * to compute `Scan`. The lemmas at the end state what the tree built this
 * way always looks like.
 */
module MapParser {
  import opened Wrappers
  import opened Text
  import opened ObjectFiles
  import opened Scanner

  /** None returned for a missing anchor, and the IndexError raised by
      `sections[-1]` when an indented entry comes before any section. */
  datatype ParseError = AnchorNotFound | OrphanChild

  const Anchor: string := "Memory Configuration"

  // ---------------------------------------------------------------------
  // readline() and the anchor search
  // ---------------------------------------------------------------------

  /** Where the line readline() returns from `i` stops: just after its
      '\n', or at the end of the text. */
  function LineStop(text: string, i: nat): (j: nat)
    requires i <= |text|
    ensures i <= j <= |text|
    ensures i < |text| ==> i < j
    ensures forall k :: i <= k < j - 1 ==> text[k] != '\n'
    ensures j < |text| ==> text[j - 1] == '\n'
  {
    var e := LineEnd(text, i);
    if e < |text| then e + 1 else e
  }

  /** readline() can start a (non-empty) line at `i`. */
  predicate IsLineStart(text: string, i: nat) {
    i < |text| && (i == 0 || text[i - 1] == '\n')
  }

  ghost predicate IsAnchorLine(text: string, i: nat) {
    IsLineStart(text, i) && Strip(text[i..LineStop(text, i)]) == Anchor
  }

  ghost predicate HasAnchor(text: string) {
    exists i :: IsAnchorLine(text, i)
  }

  ghost predicate FirstAnchorLine(text: string, i: nat) {
    IsAnchorLine(text, i) && forall j :: 0 <= j < i ==> !IsAnchorLine(text, j)
  }

  /** The readline() loop: the start of the first line that strips to the
      anchor phrase, or None when no line does. */
  method FindAnchor(text: string) returns (r: Option<nat>)
    ensures r.None? <==> !HasAnchor(text)
    ensures r.Some? ==> FirstAnchorLine(text, r.value)
  {
    var i := 0;
    while i < |text|
      invariant i <= |text|
      invariant i < |text| ==> IsLineStart(text, i)
      invariant forall j :: 0 <= j < i ==> !IsAnchorLine(text, j)
    {
      var next := LineStop(text, i);
      if Strip(text[i..next]) == Anchor {
        assert IsAnchorLine(text, i);
        return Some(i);
      }
      NoLineStartsInside(text, i);
      i := next;
    }
    return None;
  }

  /** No line starts strictly inside the line that starts at `i`. */
  lemma NoLineStartsInside(text: string, i: nat)
    requires i < |text|
    ensures forall j :: i < j < LineStop(text, i) ==> !IsLineStart(text, j)
  {
  }

  /** The first anchor line, when there is one, is unique. */
  lemma FirstAnchorLineUnique(text: string, i: nat, j: nat)
    requires FirstAnchorLine(text, i) && FirstAnchorLine(text, j)
    ensures i == j
  {
    assert i < j ==> !IsAnchorLine(text, i);
    assert j < i ==> !IsAnchorLine(text, j);
  }

  // ---------------------------------------------------------------------
  // One turn of the scanning loop
  // ---------------------------------------------------------------------

  /** The test `section != '*default*' and size > 0` on the raw name. */
  predicate Kept(e: Entry) {
    e.section != "*default*" && e.size > 0
  }

  /** `section.startswith(' ')` on the raw name. */
  predicate Indented(e: Entry) {
    |e.section| > 0 && e.section[0] == ' '
  }

  function Last(sections: seq<Objectfile>): Objectfile
    requires |sections| > 0
  {
    sections[|sections| - 1]
  }

  /** The Objectfile made from a matched entry. */
  function EntryObject(e: Entry): (o: Objectfile)
    requires e.comment.Some? ==> NoNewline(e.comment.value)
  {
    NewObjectfile(e.section, e.offset, e.size, e.comment)
  }

  /** `sections[-1].children.append(child)` */
  function AppendChild(sections: seq<Objectfile>, child: Objectfile): (r: seq<Objectfile>)
    requires |sections| > 0
    // only the last section changes, and only by one more child
    ensures |r| == |sections| && r[..|r| - 1] == sections[..|sections| - 1]
    ensures Last(r) == Last(sections).(children := Last(sections).children + [child])
  {
    var last := Last(sections);
    sections[|sections| - 1 := last.(children := last.children + [child])]
  }

  /** The last child of the last section with `syms` appended to its
      symbols. */
  function AddSymbols(sections: seq<Objectfile>, syms: seq<Symbol>): seq<Objectfile>
    requires |sections| > 0 && |Last(sections).children| > 0
  {
    var last := Last(sections);
    var child := last.children[|last.children| - 1];
    sections[|sections| - 1 := last.(children := last.children[|last.children| - 1 := child.(symbols := child.symbols + syms)])]
  }

  /** `sections[-1].children[-1].children.append(sym)` */
  function AppendSymbol(sections: seq<Objectfile>, sym: Symbol): seq<Objectfile>
    requires |sections| > 0 && |Last(sections).children| > 0
  {
    AddSymbols(sections, [sym])
  }

  lemma AddNoSymbols(sections: seq<Objectfile>)
    requires |sections| > 0 && |Last(sections).children| > 0
    ensures AddSymbols(sections, []) == sections
  {
    var last := Last(sections);
    var child := last.children[|last.children| - 1];
    assert child.symbols + [] == child.symbols;
    assert last.children[|last.children| - 1 := child] == last.children;
    assert sections[|sections| - 1 := last] == sections;
  }

  lemma AppendSymbolAdds(sections: seq<Objectfile>, syms: seq<Symbol>, sym: Symbol)
    requires |sections| > 0 && |Last(sections).children| > 0
    ensures AppendSymbol(AddSymbols(sections, syms), sym) == AddSymbols(sections, syms + [sym])
  {
    var last := Last(sections);
    var n := |last.children|;
    var child := last.children[n - 1];
    var added := AddSymbols(sections, syms);
    var last' := Last(added);
    assert last'.children == last.children[n - 1 := child.(symbols := child.symbols + syms)];
    var child' := last'.children[n - 1];
    assert child'.symbols + [sym] == child.symbols + (syms + [sym]);
    assert last'.children[n - 1 := child'.(symbols := child'.symbols + [sym])]
        == last.children[n - 1 := child.(symbols := child.symbols + (syms + [sym]))];
  }

  lemma AddSymbolsToNewChild(sections: seq<Objectfile>, child: Objectfile, syms: seq<Symbol>)
    requires |sections| > 0 && child.symbols == []
    ensures AddSymbols(AppendChild(sections, child), syms) == AppendChild(sections, child.(symbols := syms))
  {
    var last := Last(sections);
    var appended := AppendChild(sections, child);
    assert Last(appended).children == last.children + [child];
    assert [] + syms == syms;
    assert (last.children + [child])[|last.children| := child.(symbols := syms)]
        == last.children + [child.(symbols := syms)];
  }

  /** The symbol lines the inner `while True` loop consumes from `pos`,
      in input order, and where it stops. */
  datatype Run = Run(symbols: seq<Symbol>, end: nat)

  function SymbolRun(s: string, pos: nat): (r: Run)
    requires pos <= |s|
    ensures pos <= r.end <= |s|
    ensures MatchSymbol(s, r.end).None?
    ensures r.symbols == [] <==> r.end == pos
    ensures r.symbols == [] <==> MatchSymbol(s, pos).None?
    decreases |s| - pos
  {
    match MatchSymbol(s, pos)
    case None => Run([], pos)
    case Some(m) =>
      var rest := SymbolRun(s, m.end);
      Run([Symbol(m.offset, m.name)] + rest.symbols, rest.end)
  }

  /** A run that starts with a symbol line is that symbol followed by the
      run after it. */
  lemma SymbolRunCons(s: string, pos: nat)
    requires pos <= |s| && MatchSymbol(s, pos).Some?
    ensures var m := MatchSymbol(s, pos).value;
            && m.end <= |s|
            && SymbolRun(s, pos).symbols == [Symbol(m.offset, m.name)] + SymbolRun(s, m.end).symbols
            && SymbolRun(s, pos).end == SymbolRun(s, m.end).end
  {
  }

  datatype StepResult = Next(pos: nat, sections: seq<Objectfile>) | Stop | Orphan

  /** One turn of the outer loop at cursor `pos`. */
  function Step(s: string, pos: nat, sections: seq<Objectfile>): (r: StepResult)
    requires pos <= |s|
    // the cursor strictly advances, so the loop ends
    ensures r.Next? ==> pos < r.pos <= |s|
    // the loop ends only where no entry matches and no '\n' is left
    ensures r.Stop? <==> MatchEntry(s, pos).None? && LineEnd(s, pos) == |s|
    // a line that does not match is skipped: the scan resumes after its
    // line break, with nothing changed
    ensures MatchEntry(s, pos).None? && LineEnd(s, pos) < |s| ==>
              r == Next(LineEnd(s, pos) + 1, sections)
    // `*default*` and zero-sized entries are never added
    ensures MatchEntry(s, pos).Some? && !Kept(MatchEntry(s, pos).value) ==>
              r == Next(MatchEntry(s, pos).value.end, sections)
    // an indented entry with no section before it is the IndexError
    ensures r.Orphan? <==>
              && MatchEntry(s, pos).Some? && Kept(MatchEntry(s, pos).value)
              && Indented(MatchEntry(s, pos).value) && sections == []
    // any other kept entry adds exactly one node, of the entry's size
    ensures MatchEntry(s, pos).Some? && Kept(MatchEntry(s, pos).value) && r.Next? ==>
              var e := MatchEntry(s, pos).value;
              var o := EntryObject(e);
              if Indented(e) then
                var run := SymbolRun(s, e.end);
                && r == Next(run.end, AppendChild(sections, o.(symbols := run.symbols)))
              else
                r == Next(e.end, sections + [o])
  {
    match MatchEntry(s, pos)
    case None =>
      var nl := LineEnd(s, pos);
      if nl == |s| then Stop else Next(nl + 1, sections)
    case Some(e) =>
      if !Kept(e) then Next(e.end, sections)
      else if Indented(e) then
        if sections == [] then Orphan
        else
          var run := SymbolRun(s, e.end);
          Next(run.end, AppendChild(sections, EntryObject(e).(symbols := run.symbols)))
      else Next(e.end, sections + [EntryObject(e)])
  }

  /** The outer loop from cursor `pos` with the tree built so far. */
  function Scan(s: string, pos: nat, sections: seq<Objectfile>): (r: Result<seq<Objectfile>, ParseError>)
    requires pos <= |s|
    // the only failure is the IndexError of an orphan child
    ensures r.Err? ==> r.error == OrphanChild
    // no section is ever removed
    ensures r.Ok? ==> |sections| <= |r.value|
    decreases |s| - pos
  {
    match Step(s, pos, sections)
    case Stop => Ok(sections)
    case Orphan => Err(OrphanChild)
    case Next(p, next) => Scan(s, p, next)
  }

  // ---------------------------------------------------------------------
  // The imperative parser
  // ---------------------------------------------------------------------

  /** Loop state of the symbol loop: the run from `start` is the symbols
      `added` so far followed by the run from `pos`. */
  ghost predicate RunFrom(s: string, start: nat, pos: nat, added: seq<Symbol>)
    requires start <= pos <= |s|
  {
    SymbolRun(s, start) == Run(added + SymbolRun(s, pos).symbols, SymbolRun(s, pos).end)
  }

  lemma RunAdvance(s: string, start: nat, pos: nat, added: seq<Symbol>)
    requires start <= pos <= |s| && MatchSymbol(s, pos).Some?
    requires RunFrom(s, start, pos, added)
    ensures var m := MatchSymbol(s, pos).value;
            pos < m.end <= |s| && RunFrom(s, start, m.end, added + [Symbol(m.offset, m.name)])
  {
    var m := MatchSymbol(s, pos).value;
    SymbolRunCons(s, pos);
    assert added + ([Symbol(m.offset, m.name)] + SymbolRun(s, m.end).symbols)
        == added + [Symbol(m.offset, m.name)] + SymbolRun(s, m.end).symbols;
  }

  lemma RunDone(s: string, start: nat, pos: nat, added: seq<Symbol>)
    requires start <= pos <= |s| && MatchSymbol(s, pos).None?
    requires RunFrom(s, start, pos, added)
    ensures SymbolRun(s, start) == Run(added, pos)
  {
    assert added + [] == added;
  }

  /** One turn of the symbol loop keeps its invariant. */
  lemma ReadStep(s: string, start: nat, pos: nat, sections: seq<Objectfile>, added: seq<Symbol>)
    requires start <= pos <= |s| && MatchSymbol(s, pos).Some?
    requires |sections| > 0 && |Last(sections).children| > 0
    requires RunFrom(s, start, pos, added)
    ensures var m := MatchSymbol(s, pos).value;
            var sym := Symbol(m.offset, m.name);
            && pos < m.end <= |s| && RunFrom(s, start, m.end, added + [sym])
            && AppendSymbol(AddSymbols(sections, added), sym) == AddSymbols(sections, added + [sym])
  {
    var m := MatchSymbol(s, pos).value;
    RunAdvance(s, start, pos, added);
    AppendSymbolAdds(sections, added, Symbol(m.offset, m.name));
  }

  /** The inner `while True` loop: append the symbol lines that follow an
      indented entry to the entry just appended, and stop at the first line
      that is not one. */
  method ReadSymbols(s: string, start: nat, sections: seq<Objectfile>) returns (pos: nat, out: seq<Objectfile>)
    requires start <= |s|
    requires |sections| > 0 && |Last(sections).children| > 0
    ensures pos == SymbolRun(s, start).end
    ensures out == AddSymbols(sections, SymbolRun(s, start).symbols)
  {
    pos, out := start, sections;
    AddNoSymbols(sections);
    ghost var added: seq<Symbol> := [];
    while true
      invariant start <= pos <= |s|
      invariant RunFrom(s, start, pos, added)
      invariant out == AddSymbols(sections, added)
      decreases |s| - pos
    {
      var m := MatchSymbol(s, pos);
      if m.None? {
        RunDone(s, start, pos, added);
        return;
      }
      // the source guards the append with `if sections and
      // sections[-1].children`, which holds here
      var sym := Symbol(m.value.offset, m.value.name);
      ReadStep(s, start, pos, sections, added);
      out := AppendSymbol(out, sym);
      added := added + [sym];
      pos := m.value.end;
    }
  }


  /** One turn of the outer `while True` loop: what it does at cursor
      `pos` to the sections built so far. */
  method Advance(s: string, pos: nat, sections: seq<Objectfile>) returns (r: StepResult)
    requires pos <= |s|
    ensures r == Step(s, pos, sections)
  {
    var m := MatchEntry(s, pos);
    if m.None? {
      var nl := LineEnd(s, pos);
      if nl == |s| {
        return Stop;
      }
      return Next(nl + 1, sections);
    }
    var e := m.value;
    if e.section != "*default*" && e.size > 0 {
      var o := NewObjectfile(e.section, e.offset, e.size, e.comment);
      if e.section[0] == ' ' {
        if |sections| == 0 {
          return Orphan;
        }
        var end, out := ReadSymbols(s, e.end, AppendChild(sections, o));
        AddSymbolsToNewChild(sections, o, SymbolRun(s, e.end).symbols);
        return Next(end, out);
      }
      return Next(e.end, sections + [o]);
    }
    return Next(e.end, sections);
  }

  /** parseSections: AnchorNotFound exactly when no line strips to the
      anchor phrase; otherwise the scan of the text after the first such
      line. */
  method ParseSections(text: string) returns (r: Result<seq<Objectfile>, ParseError>)
    ensures r == Err(AnchorNotFound) <==> !HasAnchor(text)
    ensures forall i :: FirstAnchorLine(text, i) ==> r == Scan(text[LineStop(text, i)..], 0, [])
    ensures r.Ok? ==> TreeShape(r.value)
  {
    var found := FindAnchor(text);
    if found.None? {
      return Err(AnchorNotFound);
    }
    var s := text[LineStop(text, found.value)..];
    var sections: seq<Objectfile> := [];
    var pos := 0;
    while true
      invariant pos <= |s|
      invariant Scan(s, pos, sections) == Scan(s, 0, [])
      decreases |s| - pos
    {
      var step := Advance(s, pos, sections);
      match step
      case Stop =>
        break;
      case Orphan =>
        return Err(OrphanChild);
      case Next(p, next) =>
        pos, sections := p, next;
    }
    forall i | FirstAnchorLine(text, i)
      ensures i == found.value
    {
      FirstAnchorLineUnique(text, i, found.value);
    }
    ScanShape(s, 0, []);
    return Ok(sections);
  }

  // ---------------------------------------------------------------------
  // What the scan always builds
  // ---------------------------------------------------------------------

  /** A contribution: positive size, a stripped name, no nodes below it
      (only symbols). */
  ghost predicate ChildShape(c: Objectfile) {
    c.size > 0 && Strip(c.section) == c.section && c.children == []
  }

  /** An output section: positive size, a stripped name, no symbols of its
      own, and contributions below it. */
  ghost predicate SectionShape(o: Objectfile) {
    && o.size > 0 && Strip(o.section) == o.section && o.symbols == []
    && forall j :: 0 <= j < |o.children| ==> ChildShape(o.children[j])
  }

  ghost predicate TreeShape(sections: seq<Objectfile>) {
    forall i :: 0 <= i < |sections| ==> SectionShape(sections[i])
  }

  /** The node built from a kept entry has the shape of a section, and,
      carrying its symbols, the shape of a contribution. */
  lemma EntryObjectShape(e: Entry, symbols: seq<Symbol>)
    requires Kept(e)
    requires e.comment.Some? ==> NoNewline(e.comment.value)
    ensures SectionShape(EntryObject(e))
    ensures ChildShape(EntryObject(e).(symbols := symbols))
  {
    StripIdempotent(e.section);
  }

  /** Appending a section keeps the shape. */
  lemma AppendSectionShape(sections: seq<Objectfile>, o: Objectfile)
    requires TreeShape(sections) && SectionShape(o)
    ensures TreeShape(sections + [o])
  {
    forall i | 0 <= i < |sections| + 1
      ensures SectionShape((sections + [o])[i])
    {
      if i < |sections| {
        assert (sections + [o])[i] == sections[i];
      }
    }
  }

  /** Appending a contribution to the last section keeps the shape. */
  lemma AppendChildShape(sections: seq<Objectfile>, c: Objectfile)
    requires TreeShape(sections) && sections != [] && ChildShape(c)
    ensures TreeShape(AppendChild(sections, c))
  {
    var last := Last(sections);
    var children := last.children + [c];
    assert SectionShape(last);
    forall j | 0 <= j < |children|
      ensures ChildShape(children[j])
    {
      if j < |last.children| {
        assert children[j] == last.children[j];
      }
    }
    assert SectionShape(last.(children := children));
  }

  lemma StepShape(s: string, pos: nat, sections: seq<Objectfile>)
    requires pos <= |s| && TreeShape(sections)
    ensures Step(s, pos, sections).Next? ==> TreeShape(Step(s, pos, sections).sections)
  {
    var m := MatchEntry(s, pos);
    if m.Some? && Kept(m.value) {
      var e := m.value;
      var o := EntryObject(e);
      var run := SymbolRun(s, e.end);
      EntryObjectShape(e, run.symbols);
      if Indented(e) {
        if sections != [] {
          AppendChildShape(sections, o.(symbols := run.symbols));
        }
      } else {
        AppendSectionShape(sections, o);
      }
    }
  }

  /** Every tree the scan returns has the three-level shape. */
  lemma {:induction false} ScanShape(s: string, pos: nat, sections: seq<Objectfile>)
    requires pos <= |s| && TreeShape(sections)
    ensures Scan(s, pos, sections).Ok? ==> TreeShape(Scan(s, pos, sections).value)
    decreases |s| - pos
  {
    StepShape(s, pos, sections);
    match Step(s, pos, sections)
    case Stop =>
    case Orphan =>
    case Next(p, next) =>
      ScanShape(s, p, next);
  }

  /** `b` is `a` after appends only: sections before the last are
      untouched, and the last one keeps its fields and its children and may
      gain more children; new sections may follow. */
  ghost predicate Extends(a: seq<Objectfile>, b: seq<Objectfile>) {
    && |a| <= |b|
    && (forall i :: 0 <= i < |a| - 1 ==> b[i] == a[i])
    && (|a| > 0 ==>
          && b[|a| - 1] == a[|a| - 1].(children := b[|a| - 1].children)
          && a[|a| - 1].children <= b[|a| - 1].children)
  }

  lemma ExtendsTransitive(a: seq<Objectfile>, b: seq<Objectfile>, c: seq<Objectfile>)
    requires Extends(a, b) && Extends(b, c)
    ensures Extends(a, c)
  {
    if |a| > 0 && |a| < |b| {
      assert c[|a| - 1] == b[|a| - 1];
    }
  }

  lemma StepExtends(s: string, pos: nat, sections: seq<Objectfile>)
    requires pos <= |s|
    ensures Step(s, pos, sections).Next? ==> Extends(sections, Step(s, pos, sections).sections)
  {
    var r := Step(s, pos, sections);
    var m := MatchEntry(s, pos);
    if m.Some? && Kept(m.value) && r.Next? && Indented(m.value) {
      var last := Last(sections);
      var c := EntryObject(m.value).(symbols := SymbolRun(s, m.value.end).symbols);
      assert last.children <= last.children + [c];
    }
  }

  /** The scan only ever appends: a node, once in the tree, keeps its
      fields, and only the newest section gains children. */
  lemma {:induction false} ScanExtends(s: string, pos: nat, sections: seq<Objectfile>)
    requires pos <= |s|
    ensures Scan(s, pos, sections).Ok? ==> Extends(sections, Scan(s, pos, sections).value)
    decreases |s| - pos
  {
    StepExtends(s, pos, sections);
    match Step(s, pos, sections)
    case Stop =>
    case Orphan =>
    case Next(p, next) =>
      ScanExtends(s, p, next);
      if Scan(s, p, next).Ok? {
        ExtendsTransitive(sections, next, Scan(s, p, next).value);
      }
  }
}
