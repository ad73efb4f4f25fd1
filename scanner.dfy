/**
 * The two line shapes of parseSections, as anchored matchers over the
 * buffer `s` at a cursor:
 *
 *   entry  `(?P<section>.+?|.{14,}\n)[ ]+0x(?P<offset>[0-9a-f]+)[ ]+0x(?P<size>[0-9a-f]+)(?:[ ]+(?P<comment>.+))?\n+`
 *   symbol `[ ]{16}0x(?P<offset>[0-9a-f]+)[ ]+(?P<function>.+)\n+`
 *
 * both compiled with re.I. After the name every part of these patterns is
 * a greedy run whose backtracking cannot lead to another match, with one
 * exception: when the rest of a line after `[ ]+` is all blanks, the
 * greedy blanks give back their last one so that `(.+)` captures a single
 * blank (SpacedText). Apart from that each matcher below is a straight
 * left-to-right scan; only the lazy name `.+?` needs a search, over the
 * name lengths in increasing order.
 */
module Scanner {
  import opened Wrappers
  import opened Text
  import opened ObjectFiles

  /** End of the run of `c` from `i`: the greedy `[ ]+` for a blank, `\n+` for a line break. */
  function SkipRun(s: string, i: nat, c: char): (j: nat)
    requires i <= |s|
    ensures i <= j <= |s|
    ensures forall k :: i <= k < j ==> s[k] == c
    ensures j < |s| ==> s[j] != c
    decreases |s| - i
  {
    if i < |s| && s[i] == c then SkipRun(s, i + 1, c) else i
  }

  /** End of the run of hexadecimal digits from `i`. */
  function SkipHexDigits(s: string, i: nat): (j: nat)
    requires i <= |s|
    ensures i <= j <= |s|
    ensures forall k :: i <= k < j ==> IsHexDigit(s[k])
    ensures j < |s| ==> !IsHexDigit(s[j])
    decreases |s| - i
  {
    if i < |s| && IsHexDigit(s[i]) then SkipHexDigits(s, i + 1) else i
  }

  /** End of the line that holds position `i`: the next '\n' or the end. */
  function LineEnd(s: string, i: nat): (e: nat)
    requires i <= |s|
    ensures i <= e <= |s|
    ensures forall k :: i <= k < e ==> s[k] != '\n'
    ensures e < |s| ==> s[e] == '\n'
    decreases |s| - i
  {
    if i < |s| && s[i] != '\n' then LineEnd(s, i + 1) else i
  }

  /** `0x(?P<v>[0-9a-f]+)` at `i` under re.I: the value and where the
      digits end. */
  function HexField(s: string, i: nat): (r: Option<(nat, nat)>)
    requires i <= |s|
    ensures r.None? <==> !(i + 2 < |s| && s[i] == '0' && (s[i + 1] == 'x' || s[i + 1] == 'X') && IsHexDigit(s[i + 2]))
    ensures r.Some? ==> i + 3 <= r.value.1 <= |s| && AllHex(s[i + 2..r.value.1])
                        && r.value.0 == HexValue(s[i + 2..r.value.1])
                        && (r.value.1 < |s| ==> !IsHexDigit(s[r.value.1]))
  {
    if i + 2 < |s| && s[i] == '0' && (s[i + 1] == 'x' || s[i + 1] == 'X') && IsHexDigit(s[i + 2]) then
      var j := SkipHexDigits(s, i + 2);
      Some((HexValue(s[i + 2..j]), j))
    else None
  }

  /** `[ ]+(?P<t>.+)` over the rest of a line, `s[d..e]`, followed by the
      line break at `e`. The greedy blanks leave the `.+` the rest of the
      line, except that a rest made of blanks only keeps its last blank. */
  function SpacedText(s: string, d: nat, e: nat): (r: Option<string>)
    requires d <= e <= |s|
    requires forall k :: d <= k < e ==> s[k] != '\n'
    ensures r.Some? ==> 1 <= |r.value| <= e - d - 1 && r.value == s[e - |r.value|..e]
    ensures r.Some? ==> s[d] == ' ' && NoNewline(r.value)
    ensures r.Some? && r.value != " " ==> r.value[0] != ' '
    // the text starts right after the blank run
    ensures r.Some? ==> forall k :: d <= k < e - |r.value| ==> s[k] == ' '
    ensures r == Some(" ") ==> forall k :: d <= k < e ==> s[k] == ' '
    ensures r.None? <==> (d == e || s[d] != ' ' || e - d == 1)
  {
    if d < e && s[d] == ' ' then
      var f := SkipRun(s, d, ' ');
      if f < e then Some(s[f..e])
      else if e - d >= 2 then Some(" ")
      else None
    else None
  }

  /** What the pattern captures after the name. `end` is m.end(). */
  datatype Fields = Fields(offset: nat, size: nat, comment: Option<string>, end: nat)


  /** Where the matcher is in the tail: at its start, or inside the first
      or the second blank run. */
  datatype TailState = Begin | FirstGap | SecondGap(offset: nat)

  /** The trailer `(?:[ ]+(?P<comment>.+))?\n+` after the size digits at `i`:
      the line ends there, or holds a blank-led comment up to its end; a
      last line without its line break does not match. */
  function Trailer(s: string, i: nat, offset: nat, size: nat): (r: Option<Fields>)
    requires i <= |s|
    ensures r.Some? ==> i < r.value.end <= |s| && s[r.value.end - 1] == '\n'
    ensures r.Some? ==> r.value.end < |s| ==> s[r.value.end] != '\n'
    ensures r.Some? ==> r.value.offset == offset && r.value.size == size
    ensures r.Some? && r.value.comment.Some? ==> r.value.comment.value != "" && NoNewline(r.value.comment.value)
    // the line ends at `i`, or the rest of it is a blank-led comment
    ensures r.None? <==> LineEnd(s, i) == |s| || (LineEnd(s, i) > i && SpacedText(s, i, LineEnd(s, i)).None?)
    ensures r.Some? ==> (r.value.comment.None? <==> s[i] == '\n')
    ensures r.Some? && r.value.comment.Some? ==> r.value.comment == SpacedText(s, i, LineEnd(s, i))
    // the match runs over the whole run of line breaks after the line
    ensures r.Some? ==> LineEnd(s, i) < r.value.end && forall k :: LineEnd(s, i) <= k < r.value.end ==> s[k] == '\n'
  {
    var e := LineEnd(s, i);
    if e == |s| then None
    else if e == i then Some(Fields(offset, size, None, SkipRun(s, e, '\n')))
    else (
      match SpacedText(s, i, e)
      case None => None
      case Some(comment) => Some(Fields(offset, size, Some(comment), SkipRun(s, e, '\n'))))
  }

  /** The tail from inside its second blank run, read as greedy runs: the
      rest of the blanks, the size field `0x<hex>`, then the trailer. */
  ghost function FromSize(s: string, i: nat, offset: nat): Option<Fields>
    requires i <= |s|
  {
    match HexField(s, SkipRun(s, i, ' '))
    case None => None
    case Some((size, c)) => Trailer(s, c, offset, size)
  }

  /** The tail from inside its first blank run, read as greedy runs: the
      rest of the blanks, the offset field `0x<hex>`, at least one blank,
      then the size field and the trailer. */
  ghost function FromOffset(s: string, i: nat): Option<Fields>
    requires i <= |s|
  {
    match HexField(s, SkipRun(s, i, ' '))
    case None => None
    case Some((offset, j)) => if j < |s| && s[j] == ' ' then FromSize(s, j, offset) else None
  }

  /** The tail `[ ]+0x<hex>[ ]+0x<hex>(?:[ ]+(.+))?\n+` from inside one of
      its blank runs (one blank at a time), or its trailer
      `(?:[ ]+(?P<comment>.+))?\n+` from the end of the size digits. */
  function Tail(s: string, i: nat, st: TailState): (r: Option<Fields>)
    requires i <= |s|
    ensures r.Some? ==> i < r.value.end <= |s| && s[r.value.end - 1] == '\n'
    ensures r.Some? ==> r.value.end < |s| ==> s[r.value.end] != '\n'
    ensures r.Some? && r.value.comment.Some? ==> r.value.comment.value != "" && NoNewline(r.value.comment.value)
    decreases |s| - i
  {
    match st
    case Begin =>
      if i < |s| && s[i] == ' ' then Tail(s, i + 1, FirstGap) else None
    case FirstGap =>
      if i < |s| && s[i] == ' ' then Tail(s, i + 1, FirstGap)
      else (
        match HexField(s, i)
        case None => None
        case Some((offset, j)) => if j < |s| && s[j] == ' ' then Tail(s, j, SecondGap(offset)) else None)
    case SecondGap(offset) =>
      if i < |s| && s[i] == ' ' then Tail(s, i + 1, SecondGap(offset))
      else (
        match HexField(s, i)
        case None => None
        case Some((size, j)) => Trailer(s, j, offset, size))
  }

  /** The entry pattern after its name, at `q`. */
  function MatchTail(s: string, q: nat): (r: Option<Fields>)
    requires q <= |s|
    ensures r.Some? ==> q < r.value.end <= |s| && s[r.value.end - 1] == '\n'
    ensures r.Some? ==> r.value.end < |s| ==> s[r.value.end] != '\n'
    ensures r.Some? ==> q < |s| && s[q] == ' '
    ensures r.Some? && r.value.comment.Some? ==> r.value.comment.value != "" && NoNewline(r.value.comment.value)
  {
    Tail(s, q, Begin)
  }

  /** Inside the second blank run, stepping one blank at a time reads the
      same size and trailer as the greedy runs. */
  lemma {:induction false} SecondGapIsGreedy(s: string, i: nat, offset: nat)
    requires i <= |s|
    ensures Tail(s, i, SecondGap(offset)) == FromSize(s, i, offset)
    decreases |s| - i
  {
    if i < |s| && s[i] == ' ' {
      SecondGapIsGreedy(s, i + 1, offset);
      assert SkipRun(s, i, ' ') == SkipRun(s, i + 1, ' ');
    } else {
      assert SkipRun(s, i, ' ') == i;
    }
  }

  /** Inside the first blank run, stepping one blank at a time reads the
      same offset, size and trailer as the greedy runs. */
  lemma {:induction false} FirstGapIsGreedy(s: string, i: nat)
    requires i <= |s|
    ensures Tail(s, i, FirstGap) == FromOffset(s, i)
    decreases |s| - i
  {
    if i < |s| && s[i] == ' ' {
      FirstGapIsGreedy(s, i + 1);
      OffsetSkipsBlank(s, i);
    } else {
      OffsetField(s, i);
    }
  }

  /** At the offset field itself, both read the same field. */
  lemma OffsetField(s: string, i: nat)
    requires i <= |s| && !(i < |s| && s[i] == ' ')
    ensures Tail(s, i, FirstGap) == FromOffset(s, i)
  {
    var h := HexField(s, i);
    if h.Some? && h.value.1 < |s| && s[h.value.1] == ' ' {
      OffsetThenBlank(s, i, h.value.0, h.value.1);
    } else {
      NoOffsetField(s, i);
    }
  }

  /** An offset field followed by a blank: both go on to the size. */
  lemma OffsetThenBlank(s: string, i: nat, offset: nat, j: nat)
    requires i <= |s| && !(i < |s| && s[i] == ' ')
    requires HexField(s, i) == Some((offset, j)) && j < |s| && s[j] == ' '
    ensures Tail(s, i, FirstGap) == FromOffset(s, i)
  {
    assert Tail(s, i, FirstGap) == Tail(s, j, SecondGap(offset));
    assert FromOffset(s, i) == FromSize(s, j, offset) by {
      assert SkipRun(s, i, ' ') == i;
    }
    SecondGapIsGreedy(s, j, offset);
  }

  /** Without an offset field followed by a blank, neither matches. */
  lemma NoOffsetField(s: string, i: nat)
    requires i <= |s| && !(i < |s| && s[i] == ' ')
    requires !(HexField(s, i).Some? && HexField(s, i).value.1 < |s| && s[HexField(s, i).value.1] == ' ')
    ensures Tail(s, i, FirstGap) == None && FromOffset(s, i) == None
  {
    assert SkipRun(s, i, ' ') == i;
  }

  /** A blank before the offset field is part of the greedy blank run. */
  lemma OffsetSkipsBlank(s: string, i: nat)
    requires i < |s| && s[i] == ' '
    ensures FromOffset(s, i) == FromOffset(s, i + 1)
  {
    assert SkipRun(s, i, ' ') == SkipRun(s, i + 1, ' ');
  }

  /** What the tail after a name reads: at least one blank, the offset
      field, at least one blank, the size field and the trailer, each run
      of blanks taken whole; no match exactly when one of them is missing. */
  lemma MatchTailIsGreedy(s: string, q: nat)
    requires q <= |s|
    ensures MatchTail(s, q) == (if q < |s| && s[q] == ' ' then FromOffset(s, q) else None)
  {
    if q < |s| && s[q] == ' ' {
      FirstGapIsGreedy(s, q + 1);
      assert SkipRun(s, q, ' ') == SkipRun(s, q + 1, ' ');
    }
  }

  /** The first position in [k, L) where the tail matches. */
  function FirstTail(s: string, k: nat, l: nat): (r: Option<nat>)
    requires l <= |s|
    ensures r.Some? ==> k <= r.value < l && MatchTail(s, r.value).Some?
    ensures r.Some? ==> forall j :: k <= j < r.value ==> MatchTail(s, j).None?
    ensures r.None? ==> forall j :: k <= j < l ==> MatchTail(s, j).None?
    decreases l - k
  {
    if k >= l then None
    else if MatchTail(s, k).Some? then Some(k)
    else FirstTail(s, k + 1, l)
  }

  /** One match of the entry pattern: the raw name as captured (it may end
      in '\n' when it came from the second alternative) and the fields. */
  datatype Entry = Entry(section: string, offset: nat, size: nat, comment: Option<string>, end: nat)

  /** `e` is what the pattern captures when its name is the text from
      `pos` up to the tail. */
  ghost predicate Captures(s: string, pos: nat, e: Entry) {
    var n := |e.section|;
    && 1 <= n && pos + n <= |s| && e.section == s[pos..pos + n]
    && MatchTail(s, pos + n) == Some(Fields(e.offset, e.size, e.comment, e.end))
  }

  /** No tail starts strictly between `a` and `b`: no shorter name fits. */
  ghost predicate NoTailBetween(s: string, a: nat, b: nat)
    requires b <= |s|
  {
    forall k :: a < k < b ==> MatchTail(s, k).None?
  }

  /** The first alternative `.+?`: the shortest name on the line that
      ends at `l`. */
  function ShortName(s: string, pos: nat, l: nat): (r: Option<Entry>)
    requires pos <= l <= |s|
    requires forall k :: pos <= k < l ==> s[k] != '\n'
    ensures r.Some? ==> Captures(s, pos, r.value) && NoNewline(r.value.section)
    ensures r.Some? ==> NoTailBetween(s, pos, pos + |r.value.section|)
    ensures r.Some? ==> pos < r.value.end <= |s| && s[r.value.end - 1] == '\n'
    ensures r.Some? ==> r.value.end < |s| ==> s[r.value.end] != '\n'
    ensures r.Some? && r.value.comment.Some? ==> NoNewline(r.value.comment.value)
    ensures r.None? <==> NoTailBetween(s, pos, l)
  {
    match FirstTail(s, pos + 1, l)
    case Some(k) =>
      var f := MatchTail(s, k).value;
      var e := Entry(s[pos..k], f.offset, f.size, f.comment, f.end);
      assert pos + |e.section| == k;
      Some(e)
    case None => None
  }

  /** The second alternative `.{14,}\n`: the whole line of at least 14
      characters `s[pos..l]` together with its line break. */
  function LongName(s: string, pos: nat, l: nat): (r: Option<Entry>)
    requires pos <= l <= |s|
    requires forall k :: pos <= k < l ==> s[k] != '\n'
    requires l < |s| ==> s[l] == '\n'
    ensures r.Some? ==> Captures(s, pos, r.value) && r.value.section == s[pos..l + 1]
    ensures r.Some? ==> |r.value.section| == l + 1 - pos
    ensures r.Some? ==> l - pos >= 14 && l < |s| && s[l] == '\n'
    ensures r.None? <==> !(l - pos >= 14 && l < |s| && MatchTail(s, l + 1).Some?)
    ensures r.Some? ==>
              var n := |r.value.section|;
              && n >= 15 && r.value.section[n - 1] == '\n'
              && NoNewline(r.value.section[..n - 1]) && !NoNewline(r.value.section)
    ensures r.Some? ==> pos < r.value.end <= |s| && s[r.value.end - 1] == '\n'
    ensures r.Some? ==> r.value.end < |s| ==> s[r.value.end] != '\n'
    ensures r.Some? && r.value.comment.Some? ==> NoNewline(r.value.comment.value)
  {
    if l - pos >= 14 && l < |s| then
      match MatchTail(s, l + 1)
      case None => None
      case Some(f) =>
        var e := Entry(s[pos..l + 1], f.offset, f.size, f.comment, f.end);
        assert pos + |e.section| == l + 1;
        assert e.section[..l - pos] == s[pos..l];
        assert e.section[l - pos] == '\n';
        Some(e)
    else None
  }

  /** `sectionre.match(s, pos)`. The name is the shortest one-line prefix
      followed by a matching tail; only when no such prefix exists is a
      whole line of 14 or more characters, with its '\n', taken as the
      name. A match always consumes at least one '\n' and ends at the
      last of a run of them. */
  function MatchEntry(s: string, pos: nat): (r: Option<Entry>)
    requires pos <= |s|
    ensures r.Some? ==> Captures(s, pos, r.value)
    ensures r.Some? ==> pos < r.value.end <= |s| && s[r.value.end - 1] == '\n'
    ensures r.Some? ==> r.value.end < |s| ==> s[r.value.end] != '\n'
    ensures r.Some? && r.value.comment.Some? ==> NoNewline(r.value.comment.value)
    // first alternative: the shortest name on the line
    ensures r.Some? && NoNewline(r.value.section) ==>
              NoTailBetween(s, pos, pos + |r.value.section|)
    // second alternative: a long line, and no name on it matched
    ensures r.Some? && !NoNewline(r.value.section) ==>
              var n := |r.value.section|;
              && n >= 15 && r.value.section[n - 1] == '\n'
              && NoNewline(r.value.section[..n - 1])
              && NoTailBetween(s, pos, pos + n - 1)
    // no match: no name on the line fits, and the line is shorter than 14
    // characters, is the last one, or the next line is no tail
    ensures r.None? <==>
              var l := LineEnd(s, pos);
              && NoTailBetween(s, pos, l)
              && !(l - pos >= 14 && l < |s| && MatchTail(s, l + 1).Some?)
  {
    var l := LineEnd(s, pos);
    var short := ShortName(s, pos, l);
    if short.Some? then short
    else
      assert NoTailBetween(s, pos, l);
      LongName(s, pos, l)
  }

  /** One match of the symbol pattern. */
  datatype SymbolLine = SymbolLine(offset: nat, name: string, end: nat)

  /** The symbol pattern from its address: `0x<hex>[ ]+(.+)\n+`. */
  function SymbolTail(s: string, i: nat): (r: Option<SymbolLine>)
    requires i <= |s|
    ensures r.Some? ==> i < r.value.end <= |s| && s[r.value.end - 1] == '\n'
    ensures r.Some? ==> r.value.end < |s| ==> s[r.value.end] != '\n'
    ensures r.Some? ==> r.value.name != "" && NoNewline(r.value.name)
    ensures r.Some? ==> i < |s| && s[i] == '0'
  {
    match HexField(s, i)
    case None => None
    case Some((offset, b)) =>
      var e := LineEnd(s, b);
      if e == |s| then None
      else match SpacedText(s, b, e)
        case None => None
        case Some(name) => Some(SymbolLine(offset, name, SkipRun(s, e, '\n')))
  }

  /** The symbol pattern from inside its indentation, which ends at `e`,
      taking the remaining blanks one at a time. */
  function SymbolFrom(s: string, i: nat, e: nat): (r: Option<SymbolLine>)
    requires i <= e <= |s|
    ensures r.Some? ==> i < r.value.end <= |s| && s[r.value.end - 1] == '\n'
    ensures r.Some? ==> r.value.end < |s| ==> s[r.value.end] != '\n'
    ensures r.Some? ==> r.value.name != "" && NoNewline(r.value.name)
    ensures r.Some? ==> && e < |s| && s[e] == '0'
                        && forall k :: i <= k < e ==> s[k] == ' '
    decreases e - i
  {
    if i == e then SymbolTail(s, e)
    else if s[i] == ' ' then SymbolFrom(s, i + 1, e)
    else None
  }

  /** `s[i..e]` is all blanks. */
  ghost predicate Blanks(s: string, i: nat, e: nat) {
    e <= |s| && forall k :: i <= k < e ==> s[k] == ' '
  }

  /** Taking the blanks one at a time is the same as requiring all of
      them at once and then the address part. */
  lemma {:induction false} SymbolFromIndent(s: string, i: nat, e: nat)
    requires i <= e <= |s| && Blanks(s, i, e)
    ensures SymbolFrom(s, i, e) == SymbolTail(s, e)
    decreases e - i
  {
    if i < e {
      SymbolFromIndent(s, i + 1, e);
    }
  }

  /** Without all the blanks the pattern does not match. */
  lemma {:induction false} SymbolFromNoIndent(s: string, i: nat, e: nat)
    requires i <= e <= |s| && !Blanks(s, i, e)
    ensures SymbolFrom(s, i, e) == None
    decreases e - i
  {
    if s[i] == ' ' {
      SymbolFromNoIndent(s, i + 1, e);
    }
  }

  /** `subsectionre.match(s, pos)`: exactly sixteen blanks, `0x` and hex
      digits, blanks, and a name that runs to the line break. */
  function MatchSymbol(s: string, pos: nat): (r: Option<SymbolLine>)
    requires pos <= |s|
    ensures r.Some? ==> pos < r.value.end <= |s| && s[r.value.end - 1] == '\n'
    ensures r.Some? ==> r.value.end < |s| ==> s[r.value.end] != '\n'
    ensures r.Some? ==> pos + 16 < |s| && (forall k :: pos <= k < pos + 16 ==> s[k] == ' ') && s[pos + 16] == '0'
    ensures r.Some? ==> r.value.name != "" && NoNewline(r.value.name)
  {
    if pos + 16 <= |s| then SymbolFrom(s, pos, pos + 16) else None
  }

  /** What the address part reads at `i`. */
  lemma SymbolTailReads(s: string, i: nat)
    requires i <= |s|
    ensures var r := SymbolTail(s, i);
            r.None? <==>
              || HexField(s, i).None?
              || LineEnd(s, HexField(s, i).value.1) == |s|
              || SpacedText(s, HexField(s, i).value.1, LineEnd(s, HexField(s, i).value.1)).None?
    ensures var r := SymbolTail(s, i);
            r.Some? ==>
              var b := HexField(s, i).value.1;
              var e := LineEnd(s, b);
              && r.value.offset == HexField(s, i).value.0
              && SpacedText(s, b, e) == Some(r.value.name)
              && e < r.value.end && forall k :: e <= k < r.value.end ==> s[k] == '\n'
  {
  }

  /** The symbol pattern is sixteen blanks and then the address part. */
  lemma MatchSymbolIndent(s: string, pos: nat)
    requires pos <= |s|
    ensures MatchSymbol(s, pos) == if Blanks(s, pos, pos + 16) then SymbolTail(s, pos + 16) else None
  {
    if Blanks(s, pos, pos + 16) {
      SymbolFromIndent(s, pos, pos + 16);
    } else if pos + 16 <= |s| {
      SymbolFromNoIndent(s, pos, pos + 16);
    }
  }

  /** What the symbol pattern reads at `pos`. */
  lemma MatchSymbolReads(s: string, pos: nat)
    requires pos <= |s|
    // no match exactly when the indentation, the address field or the
    // blank-led name is missing, or the line has no line break
    ensures var r := MatchSymbol(s, pos);
            r.None? <==>
              || !Blanks(s, pos, pos + 16)
              || HexField(s, pos + 16).None?
              || LineEnd(s, HexField(s, pos + 16).value.1) == |s|
              || SpacedText(s, HexField(s, pos + 16).value.1, LineEnd(s, HexField(s, pos + 16).value.1)).None?
    // the address is the field's value; the name is the rest of the line
    // after its blanks; the match runs over the line breaks that follow
    ensures var r := MatchSymbol(s, pos);
            r.Some? ==>
              var b := HexField(s, pos + 16).value.1;
              var e := LineEnd(s, b);
              && r.value.offset == HexField(s, pos + 16).value.0
              && SpacedText(s, b, e) == Some(r.value.name)
              && e < r.value.end && forall k :: e <= k < r.value.end ==> s[k] == '\n'
  {
    MatchSymbolIndent(s, pos);
    if pos + 16 <= |s| {
      SymbolTailReads(s, pos + 16);
    }
  }
}
