/** `loadExtras`: the operator's prefix lists, and that the file target's output is such a list. */
module Extras {
  import opened Arith
  import opened Cidr
  import opened Dotted
  import opened Space
  import opened Text
  import LastAddr

  const MAX_FILE := 0x10_0000
  const MAX_LINE := 4096

  /** The three bytes of the UTF-8 byte-order mark. Text is a sequence of bytes here. */
  const BOM: string := "\U{ef}\U{bb}\U{bf}"

  datatype Error =
    | Missing
    | CannotOpen
    | CannotStat
    | TooLarge
    | LineTooLong(line: nat)
    | Invalid(line: nat, text: string)
    | FamilyMismatch(line: nat, text: string)
    | ScanFailed

  /**
    What stands at the path: nothing, something that cannot be opened or looked at, or data of a
    regular file or a stream, read to its end or up to a read error.
    */
  datatype OnDisk = Absent | Locked | Opaque | Data(text: string, size: nat, regular: bool, broken: bool)

  function Regular(text: string): OnDisk {
    Data(text, |text|, true, false)
  }

  datatype Result = Ok(prefixes: seq<Prefix>) | Err(error: Error)

  /** `netip.ParsePrefix`. */
  type Parser = string -> Option<Prefix>

  /** It gives prefixes, and reads IPv4 text as `Dotted.Parse` does. */
  ghost predicate GoodParser(parse: Parser) {
    && (forall s :: parse(s).Some? ==> ValidPrefix(parse(s).value))
    && (forall s :: Parse(s).Some? ==> parse(s) == Parse(s))
  }

  /** extras.go:144-153. */
  predicate MatchesFamily(p: Prefix, family: int) {
    match family
    case 4 => p.fam.V4?
    case 6 => p.fam.V6? && !LastAddr.Is4In6(Addr(p.fam, p.base))
    case _ => false
  }

  // ---- one line ----

  function StripComment(raw: string): string {
    match CutAt(raw, '#')
    case Some(h) => h.left
    case None => raw
  }

  function StripBom(raw: string): string {
    if BOM <= raw then raw[|BOM|..] else raw
  }

  /** What is left of a line for the parser. */
  function Cleaned(raw: string): string {
    TrimSpace(StripComment(raw))
  }

  // ---- lines of a file ----

  function DropCr(line: string): string {
    if line != "" && line[|line| - 1] == '\r' then line[..|line| - 1] else line
  }

  /** The lines `bufio.Scanner` sees: no empty one after a final newline. */
  function RawLines(data: string): seq<string> {
    var ls := Lines(data);
    if ls[|ls| - 1] == "" then ls[..|ls| - 1] else ls
  }

  /** A line of 4096 bytes or more does not fit the scanner's buffer with its newline. */
  predicate Fits(line: string) {
    |line| < MAX_LINE
  }

  // ---- the loader ----

  /** What one line does: nothing, a prefix, or an error. */
  datatype Line = Skip | Keep(p: Prefix) | Fail(e: Error)

  function ReadLine(parse: Parser, family: int, text: string, lineNo: nat): Line
    requires parse(text).Some? ==> ValidPrefix(parse(text).value)
  {
    if text == "" then Skip
    else
      match parse(text)
      case None => Fail(Invalid(lineNo, text))
      case Some(p) => if MatchesFamily(p, family) then Keep(Masked(p)) else Fail(FamilyMismatch(lineNo, text))
  }

  /** The text of line `k` (from 0) for the parser. */
  function TextOf(lines: seq<string>, k: nat): string
    requires k < |lines|
  {
    var raw := DropCr(lines[k]);
    Cleaned(if k == 0 then StripBom(raw) else raw)
  }

  /** Line by line from line `k`, up to the first error. */
  ghost function Load(parse: Parser, family: int, lines: seq<string>, k: nat, out: seq<Prefix>): Result
    requires GoodParser(parse) && k <= |lines|
    decreases |lines| - k
  {
    if k == |lines| then Ok(out)
    else if !Fits(lines[k]) then Err(LineTooLong(k + 1))
    else
      match ReadLine(parse, family, TextOf(lines, k), k + 1)
      case Skip => Load(parse, family, lines, k + 1, out)
      case Keep(p) => Load(parse, family, lines, k + 1, out + [p])
      case Fail(e) => Err(e)
  }

  /** What a flag and its file give: nothing for an unset flag. Only the size of a regular file is limited. */
  ghost function Loaded(path: string, file: OnDisk, family: int, parse: Parser): Result
    requires GoodParser(parse)
  {
    if path == "" then Ok([])
    else
      match file
      case Absent => Err(Missing)
      case Locked => Err(CannotOpen)
      case Opaque => Err(CannotStat)
      case Data(text, size, regular, broken) =>
        if regular && size > MAX_FILE then Err(TooLarge)
        else
          var r := Load(parse, family, RawLines(text), 0, []);
          if r.Ok? && broken then Err(ScanFailed) else r
  }

  /** extras.go:62-138. */
  method LoadExtras(path: string, file: OnDisk, family: int, parse: Parser) returns (r: Result)
    requires GoodParser(parse)
    ensures r == Loaded(path, file, family, parse)
  {
    hide TrimSpace, StripComment, DropCr, StripBom, RawLines, MatchesFamily, IsBlock;
    if path == "" {
      return Ok([]);
    }
    if !file.Data? {
      return Err(if file.Absent? then Missing else if file.Locked? then CannotOpen else CannotStat);
    }
    if file.regular && file.size > MAX_FILE {
      return Err(TooLarge);
    }
    var lines := RawLines(file.text);
    var out := [];
    var lineNo := 0;
    while lineNo < |lines| && Fits(lines[lineNo])
      invariant lineNo <= |lines|
      invariant Load(parse, family, lines, 0, []) == Load(parse, family, lines, lineNo, out)
    {
      var raw := DropCr(lines[lineNo]);
      lineNo := lineNo + 1;
      if lineNo == 1 {
        raw := StripBom(raw);
      }
      raw := StripComment(raw);
      var clean := TrimSpace(raw);
      if clean == "" {
        continue;
      }
      var prefix := parse(clean);
      if prefix.None? {
        return Err(Invalid(lineNo, clean));
      }
      if !MatchesFamily(prefix.value, family) {
        return Err(FamilyMismatch(lineNo, clean));
      }
      out := out + [Masked(prefix.value)];
    }
    if lineNo < |lines| {
      return Err(LineTooLong(lineNo + 1));
    }
    if file.broken {
      return Err(ScanFailed);
    }
    r := Ok(out);
  }

  // ---- only the texts count ----

  predicate AllFit(lines: seq<string>) {
    forall k :: 0 <= k < |lines| ==> Fits(lines[k])
  }

  /** The non-empty texts of the lines from line `k` on. */
  function Texts(lines: seq<string>, k: nat): seq<string>
    requires k <= |lines|
    decreases |lines| - k
  {
    if k == |lines| then []
    else (if TextOf(lines, k) == "" then [] else [TextOf(lines, k)]) + Texts(lines, k + 1)
  }

  /** Reading texts without places. */
  ghost function Read(parse: Parser, family: int, texts: seq<string>, out: seq<Prefix>): Result
    requires GoodParser(parse)
    decreases |texts|
  {
    if texts == [] then Ok(out)
    else
      match ReadLine(parse, family, texts[0], 0)
      case Skip => Read(parse, family, texts[1..], out)
      case Keep(p) => Read(parse, family, texts[1..], out + [p])
      case Fail(e) => Err(e)
  }

  /** A result without the number of the line. */
  function Unplaced(r: Result): Result {
    match r
    case Err(LineTooLong(_)) => Err(LineTooLong(0))
    case Err(Invalid(_, t)) => Err(Invalid(0, t))
    case Err(FamilyMismatch(_, t)) => Err(FamilyMismatch(0, t))
    case _ => r
  }

  /** If every line fits, the result depends on the texts alone, up to the line an error names. */
  lemma {:induction false} LoadReads(parse: Parser, family: int, lines: seq<string>, k: nat, out: seq<Prefix>)
    requires GoodParser(parse) && k <= |lines| && AllFit(lines)
    ensures Unplaced(Load(parse, family, lines, k, out)) == Read(parse, family, Texts(lines, k), out)
    decreases |lines| - k
  {
    hide TextOf, MatchesFamily, IsBlock, Fits;
    if k < |lines| {
      var text := TextOf(lines, k);
      var rest := Texts(lines, k + 1);
      if text == "" { assert Texts(lines, k) == [] + rest == rest; } else { assert Texts(lines, k)[1..] == rest; }
      match ReadLine(parse, family, text, k + 1) {
        case Skip => LoadReads(parse, family, lines, k + 1, out);
        case Keep(p) => LoadReads(parse, family, lines, k + 1, out + [p]);
        case Fail(_) =>
      }
    }
  }

  /** A line that does not fit is never passed over. */
  lemma {:induction false} LongNeverOk(parse: Parser, family: int, lines: seq<string>, k: nat, j: nat, out: seq<Prefix>)
    requires GoodParser(parse) && k <= j < |lines| && !Fits(lines[j])
    ensures Load(parse, family, lines, k, out).Err?
    decreases |lines| - k
  {
    hide TextOf;
    if k < j && Fits(lines[k]) {
      match ReadLine(parse, family, TextOf(lines, k), k + 1) {
        case Skip => LongNeverOk(parse, family, lines, k + 1, j, out);
        case Keep(p) => LongNeverOk(parse, family, lines, k + 1, j, out + [p]);
        case Fail(_) =>
      }
    }
  }

  /** Every text is a prefix of the family. */
  ghost predicate AllRead(parse: Parser, family: int, texts: seq<string>)
    requires GoodParser(parse)
  {
    forall k :: 0 <= k < |texts| ==> parse(texts[k]).Some? && MatchesFamily(parse(texts[k]).value, family)
  }

  ghost function PrefixesOf(parse: Parser, family: int, texts: seq<string>): seq<Prefix>
    requires GoodParser(parse) && AllRead(parse, family, texts)
  {
    seq(|texts|, k requires 0 <= k < |texts| => Masked(parse(texts[k]).value))
  }

  lemma {:induction false} ReadExactly(parse: Parser, family: int, texts: seq<string>, out: seq<Prefix>)
    requires GoodParser(parse) && "" !in texts
    ensures Read(parse, family, texts, out).Ok? <==> AllRead(parse, family, texts)
    ensures AllRead(parse, family, texts) ==>
              Read(parse, family, texts, out) == Ok(out + PrefixesOf(parse, family, texts))
    decreases |texts|
  {
    hide MatchesFamily;
    if texts != [] {
      var t := texts[0];
      assert t in texts;
      match ReadLine(parse, family, t, 0) {
        case Skip =>
        case Keep(p) =>
          ReadExactly(parse, family, texts[1..], out + [p]);
          assert AllRead(parse, family, texts[1..]) <==> AllRead(parse, family, texts) by { FirstRead(parse, family, texts); }
          if AllRead(parse, family, texts) {
            assert out + [p] + PrefixesOf(parse, family, texts[1..]) == out + PrefixesOf(parse, family, texts);
          }
        case Fail(_) =>
      }
    }
  }

  lemma FirstRead(parse: Parser, family: int, texts: seq<string>)
    requires GoodParser(parse) && texts != [] && parse(texts[0]).Some? && MatchesFamily(parse(texts[0]).value, family)
    ensures AllRead(parse, family, texts[1..]) <==> AllRead(parse, family, texts)
  {
    hide MatchesFamily;
    if AllRead(parse, family, texts[1..]) {
      forall k | 0 <= k < |texts| ensures parse(texts[k]).Some? && MatchesFamily(parse(texts[k]).value, family) {
        if k > 0 { assert texts[k] == texts[1..][k - 1]; }
      }
    }
  }

  lemma {:induction false} NoEmptyText(lines: seq<string>, k: nat)
    requires k <= |lines|
    ensures "" !in Texts(lines, k)
    decreases |lines| - k
  {
    hide TextOf;
    if k < |lines| { NoEmptyText(lines, k + 1); }
  }

  /**
    The loader succeeds exactly when every line fits and every text is a prefix of the family, and
    then returns them masked, in order.
    */
  lemma LoadExactly(parse: Parser, family: int, lines: seq<string>)
    requires GoodParser(parse)
    ensures var r := Load(parse, family, lines, 0, []); var texts := Texts(lines, 0);
            && (r.Ok? <==> AllFit(lines) && AllRead(parse, family, texts))
            && (r.Ok? ==> r == Ok(PrefixesOf(parse, family, texts)))
  {
    hide GoodParser, Texts, Load, Fits, AllRead;
    if AllFit(lines) {
      LoadReads(parse, family, lines, 0, []);
      NoEmptyText(lines, 0);
      ReadExactly(parse, family, Texts(lines, 0), []);
      assert AllRead(parse, family, Texts(lines, 0)) ==>
             [] + PrefixesOf(parse, family, Texts(lines, 0)) == PrefixesOf(parse, family, Texts(lines, 0));
    } else {
      var j :| 0 <= j < |lines| && !Fits(lines[j]);
      LongNeverOk(parse, family, lines, 0, j, []);
    }
  }

  // ---- which prefixes and which errors ----

  /**
    The two flags: an IPv4 prefix for the one, for the other an IPv6 one outside ::ffff:0:0/96,
    where IPv4 is mapped.
    */
  predicate OfFlag(p: Prefix, family: int) {
    if family == 4 then p.fam.V4? else p.fam.V6? && p.base / 0x1_0000_0000 != 0xffff
  }

  lemma FlagFamily(p: Prefix, family: int)
    requires family == 4 || family == 6
    ensures MatchesFamily(p, family) <==> OfFlag(p, family)
  {
  }

  lemma TwiceProduct(m: nat, q: nat)
    ensures m * (2 * q) == 2 * (m * q)
  {
  }

  lemma {:induction false} MultipleAligned(m: nat, k: nat)
    ensures Aligned(m * Pow2(k), k)
  {
    if k > 0 {
      var y := m * Pow2(k - 1);
      TwiceProduct(m, Pow2(k - 1));
      MultipleAligned(m, k - 1);
      TwiceAligned(y, k - 1);
    }
  }

  lemma TwiceAligned(y: nat, k: nat)
    requires Aligned(y, k)
    ensures Aligned(2 * y, k + 1)
  {
    assert 2 * y / 2 == y;
  }

  lemma {:induction false} AlignedMultiple(x: nat, k: nat) returns (m: nat)
    requires Aligned(x, k)
    ensures x == m * Pow2(k)
  {
    if k == 0 {
      m := x;
    } else {
      m := AlignedMultiple(x / 2, k - 1);
      TwiceProduct(m, Pow2(k - 1));
    }
  }

  /** Clearing at most 32 low bits leaves those above alone. */
  lemma SameTop(x: nat, k: nat)
    requires k <= 32
    ensures ClearLow(x, k) / 0x1_0000_0000 == x / 0x1_0000_0000
  {
    hide Pow2, ClearLow, Aligned;
    Pow2At32();
    var r, m := ClearLow(x, k), x / 0x1_0000_0000;
    MultipleAligned(m, 32);
    var top := m * Pow2(32);
    AlignedCoarser(top, k, 32);
    if r < top { AlignedApart(r, top, k); }
  }

  /** A number aligned to 2^33 has an even top. */
  lemma EvenTop(x: nat, k: nat)
    requires k > 32 && Aligned(x, k)
    ensures x / 0x1_0000_0000 % 2 == 0
  {
    hide Aligned;
    Pow2At32();
    AlignedCoarser(x, 33, k);
    var m := AlignedMultiple(x, 33);
    assert x == 0x1_0000_0000 * (2 * m);
  }

  /** Masking cannot move a prefix into the IPv4-mapped block. */
  lemma MaskedStaysOut(p: Prefix)
    requires ValidPrefix(p) && p.fam.V6? && p.base / 0x1_0000_0000 != 0xffff
    ensures Masked(p).fam.V6? && Masked(p).base / 0x1_0000_0000 != 0xffff
  {
    hide Pow2, ClearLow, Aligned;
    var k := HostBits(p);
    if k <= 32 { SameTop(p.base, k); } else { EvenTop(Masked(p).base, k); }
  }

  /** Every prefix the loader returns is masked and of its flag's family. */
  lemma {:induction false} LoadKeepsFamily(parse: Parser, family: int, lines: seq<string>, k: nat, out: seq<Prefix>)
    requires GoodParser(parse) && k <= |lines| && (family == 4 || family == 6)
    requires forall i :: 0 <= i < |out| ==> IsBlock(out[i]) && OfFlag(out[i], family)
    ensures var r := Load(parse, family, lines, k, out);
            r.Ok? ==> forall i :: 0 <= i < |r.prefixes| ==> IsBlock(r.prefixes[i]) && OfFlag(r.prefixes[i], family)
    decreases |lines| - k
  {
    hide IsBlock, TextOf, Fits, OfFlag;
    if k < |lines| && Fits(lines[k]) {
      match ReadLine(parse, family, TextOf(lines, k), k + 1) {
        case Skip => LoadKeepsFamily(parse, family, lines, k + 1, out);
        case Keep(p) =>
          KeptFamily(parse, family, TextOf(lines, k), k + 1);
          LoadKeepsFamily(parse, family, lines, k + 1, out + [p]);
        case Fail(_) =>
      }
    }
  }

  lemma KeptFamily(parse: Parser, family: int, text: string, lineNo: nat)
    requires GoodParser(parse) && (family == 4 || family == 6)
    ensures var l := ReadLine(parse, family, text, lineNo); l.Keep? ==> IsBlock(l.p) && OfFlag(l.p, family)
  {
    hide Pow2, ClearLow, Aligned;
    if parse(text).Some? {
      var p := parse(text).value;
      MaskedBlock(p);
      if OfFlag(p, 6) { MaskedStaysOut(p); }
    }
  }

  lemma LoadHas(parse: Parser, family: int, lines: seq<string>, p: Prefix)
    requires GoodParser(parse) && (family == 4 || family == 6)
    ensures var r := Load(parse, family, lines, 0, []); r.Ok? && p in r.prefixes ==> IsBlock(p) && OfFlag(p, family)
  {
    hide IsBlock, Load, OfFlag, GoodParser;
    LoadKeepsFamily(parse, family, lines, 0, []);
  }

  /** So an IPv4 file gives IPv4 prefixes, and an IPv6 file IPv6 ones of which none is IPv4-mapped. */
  lemma LoadedFamily(path: string, file: OnDisk, parse: Parser, p: Prefix)
    requires GoodParser(parse)
    ensures var r := Loaded(path, file, 4, parse); r.Ok? && p in r.prefixes ==> IsBlock(p) && p.fam.V4?
    ensures var r := Loaded(path, file, 6, parse);
            r.Ok? && p in r.prefixes ==> IsBlock(p) && p.fam.V6? && p.base / 0x1_0000_0000 != 0xffff
  {
    hide IsBlock, Load, RawLines, GoodParser;
    if file.Data? {
      LoadHas(parse, 4, RawLines(file.text), p);
      LoadHas(parse, 6, RawLines(file.text), p);
    }
  }

  /** The data is within the limits that hold before any line is read. */
  predicate InLimits(path: string, file: OnDisk) {
    path != "" && file.Data? && !(file.regular && file.size > 0x10_0000)
  }

  /** The line says nothing or names a prefix for the flag. */
  ghost predicate GoodLine(parse: Parser, family: int, lines: seq<string>, k: nat)
    requires GoodParser(parse) && k < |lines|
  {
    && |lines[k]| < 4096
    && (TextOf(lines, k) != "" ==> parse(TextOf(lines, k)).Some? && OfFlag(parse(TextOf(lines, k)).value, family))
  }

  lemma {:induction false} LoadStopsAt(parse: Parser, family: int, lines: seq<string>, j: nat, k: nat, out: seq<Prefix>)
    requires GoodParser(parse) && j <= k < |lines| && (family == 4 || family == 6)
    requires (forall i :: j <= i < k ==> GoodLine(parse, family, lines, i)) && !GoodLine(parse, family, lines, k)
    ensures var text := TextOf(lines, k);
            Load(parse, family, lines, j, out) ==
              if |lines[k]| >= 4096 then Err(LineTooLong(k + 1))
              else if parse(text).None? then Err(Invalid(k + 1, text))
              else Err(FamilyMismatch(k + 1, text))
    decreases k - j
  {
    hide TextOf, IsBlock;
    if j < k {
      assert GoodLine(parse, family, lines, j);
      match ReadLine(parse, family, TextOf(lines, j), j + 1) {
        case Skip => LoadStopsAt(parse, family, lines, j + 1, k, out);
        case Keep(p) => LoadStopsAt(parse, family, lines, j + 1, k, out + [p]);
        case Fail(_) =>
      }
    }
  }

  /**
    The first bad line decides, and the error names it: too long, no prefix, or a prefix for the
    other flag. An IPv4-mapped prefix is for neither.
    */
  lemma FirstBadLine(path: string, file: OnDisk, family: int, parse: Parser, k: nat)
    requires GoodParser(parse) && InLimits(path, file) && (family == 4 || family == 6) && k < |RawLines(file.text)|
    requires forall i :: 0 <= i < k ==> GoodLine(parse, family, RawLines(file.text), i)
    ensures var lines := RawLines(file.text); var text := TextOf(lines, k); var r := Loaded(path, file, family, parse);
            && (|lines[k]| >= 4096 ==> r == Err(LineTooLong(k + 1)))
            && (|lines[k]| < 4096 && text != "" ==>
                  match parse(text)
                  case None => r == Err(Invalid(k + 1, text))
                  case Some(p) =>
                    && (p.fam.V4? && family == 6 ==> r == Err(FamilyMismatch(k + 1, text)))
                    && (p.fam.V6? && family == 4 ==> r == Err(FamilyMismatch(k + 1, text)))
                    && (p.fam.V6? && p.base / 0x1_0000_0000 == 0xffff ==> r == Err(FamilyMismatch(k + 1, text))))
  {
    hide RawLines, TextOf, Load;
    var lines := RawLines(file.text);
    if !GoodLine(parse, family, lines, k) { LoadStopsAt(parse, family, lines, 0, k, []); }
  }

  /**
    What a flag and its file give, in every case: nothing for an unset flag; the error of the file;
    and otherwise, if and only if every line fits, every text is a prefix for the flag and the file
    can be read to its end, those prefixes masked, in order.
    */
  lemma LoadedExactly(path: string, file: OnDisk, family: int, parse: Parser)
    requires GoodParser(parse) && (family == 4 || family == 6)
    ensures var r := Loaded(path, file, family, parse);
            && (path == "" ==> r == Ok([]))
            && (path != "" ==>
                  && (file.Absent? ==> r == Err(Missing))
                  && (file.Locked? ==> r == Err(CannotOpen))
                  && (file.Opaque? ==> r == Err(CannotStat))
                  && (file.Data? && file.regular && file.size > 0x10_0000 ==> r == Err(TooLarge))
                  && (InLimits(path, file) ==>
                        var lines := RawLines(file.text); var texts := Texts(lines, 0);
                        var good := (forall i :: 0 <= i < |lines| ==> |lines[i]| < 4096)
                                    && forall i :: 0 <= i < |texts| ==>
                                         parse(texts[i]).Some? && OfFlag(parse(texts[i]).value, family);
                        && (r.Ok? <==> good && !file.broken)
                        && (good && file.broken ==> r == Err(ScanFailed))
                        && (r.Ok? ==> |r.prefixes| == |texts|
                                      && forall i :: 0 <= i < |texts| ==>
                                           parse(texts[i]).Some? && r.prefixes[i] == Masked(parse(texts[i]).value))))
  {
    hide RawLines, Texts, Load, GoodParser;
    if InLimits(path, file) { LoadExactly(parse, family, RawLines(file.text)); }
  }

  /** Files with the same texts load alike, whatever blank lines, comments and white space surround them. */
  lemma NoiseIgnored(parse: Parser, family: int, a: seq<string>, b: seq<string>)
    requires GoodParser(parse) && AllFit(a) && AllFit(b) && Texts(a, 0) == Texts(b, 0)
    ensures Unplaced(Load(parse, family, a, 0, [])) == Unplaced(Load(parse, family, b, 0, []))
  {
    hide GoodParser, Texts, Load, Fits;
    LoadReads(parse, family, a, 0, []);
    LoadReads(parse, family, b, 0, []);
  }

  // ---- what does not change the texts ----

  /** White space around a visible text and a comment after it are stripped; with no text the line says nothing. */
  lemma CleanedDecorated(before: string, s: string, after: string, comment: string)
    requires Spaces(before) && Spaces(after) && (comment == "" || comment[0] == '#')
    requires s == "" || (Visible(s) && '#' !in s)
    ensures Cleaned(before + s + after + comment) == s
  {
    hide TrimSpace, Spaces, Visible, StripComment;
    SpacesPlain(before);
    SpacesPlain(after);
    CommentStripped(before + s + after, comment);
    TrimVisible(before, s, after);
  }

  lemma CommentStripped(line: string, comment: string)
    requires '#' !in line && (comment == "" || comment[0] == '#')
    ensures StripComment(line + comment) == line
  {
    hide CutAt;
    if comment == "" {
      assert line + comment == line;
      CutFinds(line, '#');
    } else {
      CutJoined(line, '#', comment[1..]);
      assert line + comment == line + ['#'] + comment[1..];
    }
  }

  lemma CutFinds(s: string, c: char)
    ensures CutAt(s, c).Some? ==> c in s
  {
    if CutAt(s, c).Some? { assert s[|CutAt(s, c).value.left|] == c; }
  }

  lemma {:induction false} TextsTail(a: seq<string>, b: seq<string>, j: nat, k: nat)
    requires 0 < j <= |a| && 0 < k <= |b| && a[j..] == b[k..]
    ensures Texts(a, j) == Texts(b, k)
    decreases |a| - j
  {
    hide Cleaned, StripBom, DropCr;
    assert |a| - j == |a[j..]| == |b[k..]|;
    if j < |a| {
      assert a[j] == a[j..][0] == b[k..][0] == b[k];
      assert a[j + 1..] == a[j..][1..] && b[k + 1..] == b[k..][1..];
      TextsTail(a, b, j + 1, k + 1);
    }
  }

  /** `more` is `lines` with a line before line `j`. */
  predicate HasExtra(more: seq<string>, lines: seq<string>, j: nat, extra: string) {
    && j <= |lines| && |more| == |lines| + 1 && more[j] == extra && more[j + 1..] == lines[j..]
    && forall k :: 0 <= k < j ==> more[k] == lines[k]
  }

  lemma {:induction false} ExtraIgnored(more: seq<string>, lines: seq<string>, j: nat, noise: string, k: nat)
    requires HasExtra(more, lines, j, noise) && k <= j && 0 < j && Cleaned(DropCr(noise)) == ""
    ensures Texts(more, k) == Texts(lines, k)
    decreases j - k
  {
    hide Cleaned, StripBom, DropCr;
    if k < j {
      assert more[k] == lines[k];
      ExtraIgnored(more, lines, j, noise, k + 1);
    } else {
      TextsTail(more, lines, j + 1, j);
    }
  }

  /** Inserting a line that says nothing anywhere after the first line changes no text. */
  lemma Inserted(lines: seq<string>, j: nat, noise: string)
    requires 0 < j <= |lines| && Cleaned(DropCr(noise)) == ""
    ensures Texts(lines[..j] + [noise] + lines[j..], 0) == Texts(lines, 0)
  {
    hide Cleaned, DropCr, Texts;
    ExtraIgnored(lines[..j] + [noise] + lines[j..], lines, j, noise, 0);
  }

  /**
    So does one before the first line, if that does not start with a byte-order mark, which would
    then no longer be first.
    */
  lemma InsertedFirst(lines: seq<string>, noise: string)
    requires lines != [] && !(BOM <= DropCr(lines[0])) && Cleaned(StripBom(DropCr(noise))) == ""
    ensures Texts([noise] + lines, 0) == Texts(lines, 0)
  {
    hide Cleaned;
    var more := [noise] + lines;
    assert more[1] == lines[0] && more[2..] == lines[1..];
    TextsTail(more, lines, 2, 1);
    assert Texts(more, 0) == Texts(more, 1) == Texts(lines, 0);
  }

  /** A byte-order mark in front changes no text, if the first line does not already start with one. */
  lemma Marked(lines: seq<string>)
    requires lines != [] && !(BOM <= DropCr(lines[0]))
    ensures Texts(lines[0 := BOM + lines[0]], 0) == Texts(lines, 0)
  {
    hide Cleaned;
    var marked := lines[0 := BOM + lines[0]];
    assert marked[1..] == lines[1..];
    TextsTail(marked, lines, 1, 1);
    var l := lines[0];
    if l == "" {
      assert BOM + l == BOM;
    } else {
      assert (BOM + l)[|BOM + l| - 1] == l[|l| - 1];
      assert DropCr(BOM + l) == BOM + DropCr(l);
    }
    assert (BOM + DropCr(l))[|BOM|..] == DropCr(l);
  }

  /** The text starts with a byte-order mark. */
  predicate HasMark(s: string) {
    |s| >= 3 && s[0] as int == 0xef && s[1] as int == 0xbb && s[2] as int == 0xbf
  }

  lemma MarkIs(s: string)
    ensures BOM <= s <==> HasMark(s)
  {
  }

  lemma {:induction false} MarkUntrimmed(s: string)
    requires HasMark(s)
    ensures HasMark(TrimRight(s))
    decreases |s|
  {
    if SpaceEnd(s) > 0 {
      MarkNotWhite(s);
      MarkUntrimmed(s[..|s| - SpaceEnd(s)]);
    }
  }

  /** No white space at the end of such a text reaches into the mark. */
  lemma MarkNotWhite(s: string)
    requires HasMark(s)
    ensures SpaceEnd(s) <= |s| - 3 && SpaceAt(s) == 0
  {
    hide IsWhite, SpaceEnd, SpaceAt;
    var k, j := SpaceEnd(s), SpaceAt(s);
    if k > 0 { WhiteFirst(s[|s| - k..]); }
    if j > 0 { WhiteFirst(s[..j]); }
  }

  /** White space does not start with a byte of the mark. */
  lemma WhiteFirst(t: string)
    requires IsWhite(t)
    ensures |t| > 0 && t[0] as int != 0xef && t[0] as int != 0xbb && t[0] as int != 0xbf
  {
  }

  /** A byte-order mark on a later line is not stripped: it is part of the text, which is then no prefix. */
  lemma LaterMarkStays(lines: seq<string>, k: nat)
    requires 0 < k < |lines| && BOM <= lines[k]
    ensures BOM <= TextOf(lines, k)
  {
    hide SpaceAt, SpaceEnd, TrimRight, CutAt;
    var l := DropCr(lines[k]);
    MarkIs(lines[k]);
    assert HasMark(l);
    var t := StripComment(l);
    if CutAt(l, '#').Some? {
      var h := CutAt(l, '#').value;
      assert l[|h.left|] == '#';
    }
    assert HasMark(t);
    MarkNotWhite(t);
    MarkUntrimmed(t);
    MarkIs(TextOf(lines, k));
  }

  // ---- the file target's output is an extras file ----

  function Printed(ps: seq<Prefix>): seq<string> {
    seq(|ps|, i requires 0 <= i < |ps| => Print(ps[i]))
  }

  /** target.go:169-180. */
  method RenderPrefixLines(prefixes: seq<Prefix>) returns (text: string)
    ensures text == Join(Printed(prefixes))
  {
    if |prefixes| == 0 {
      return "";
    }
    var lines := [];
    for i := 0 to |prefixes|
      invariant lines == Printed(prefixes[..i])
    {
      lines := lines + [Print(prefixes[i])];
    }
    assert prefixes[..|prefixes|] == prefixes;
    text := Join(lines);
  }

  predicate PrintChar(c: char) {
    IsDigit(c) || c == '.' || c == '/'
  }

  predicate PrintChars(s: string) {
    forall i :: 0 <= i < |s| ==> PrintChar(s[i])
  }

  lemma ShortDec(n: nat)
    requires n < 1000
    ensures 1 <= |Dec(n)| <= 3 && PrintChars(Dec(n))
  {
    DecReads(n);
    if n >= 100 {
      assert |Dec(n / 10 / 10)| == 1 && |Dec(n / 10)| == 2;
    } else if n >= 10 {
      assert |Dec(n / 10)| == 1;
    }
  }

  lemma PrintShape(p: Prefix)
    requires IsV4(p)
    ensures 0 < |Print(p)| < 20 && PrintChars(Print(p))
  {
    hide Dec, Pow2;
    Pow2At32();
    OctetsAreWord(p.base);
    var o := OctetsOf(p.base);
    ShortDec(o.a);
    ShortDec(o.b);
    ShortDec(o.c);
    ShortDec(o.d);
    ShortDec(p.bits);
  }

  lemma PrintedRead(parse: Parser, ps: seq<Prefix>)
    requires GoodParser(parse) && AllV4(ps)
    ensures AllRead(parse, 4, Printed(ps)) && PrefixesOf(parse, 4, Printed(ps)) == ps
  {
    hide Print, Parse;
    forall i | 0 <= i < |ps| ensures parse(Printed(ps)[i]) == Some(ps[i]) && Masked(ps[i]) == ps[i] {
      PrintParse(ps[i]);
      MaskedBlock(ps[i]);
    }
  }

  predicate AllV4(ps: seq<Prefix>) {
    forall i :: 0 <= i < |ps| ==> IsBlock(ps[i]) && ps[i].fam.V4?
  }

  /** Lines whose texts are printed prefixes load as those prefixes. */
  lemma TextsLoad(parse: Parser, ps: seq<Prefix>, lines: seq<string>)
    requires GoodParser(parse) && AllV4(ps) && AllFit(lines) && Texts(lines, 0) == Printed(ps)
    ensures Load(parse, 4, lines, 0, []) == Ok(ps)
  {
    hide GoodParser, Texts, Load, Fits, Printed, PrefixesOf, AllRead;
    LoadExactly(parse, 4, lines);
    PrintedRead(parse, ps);
  }

  // ---- files as an operator writes them ----

  /** White space, a prefix or nothing, white space and perhaps a comment. */
  datatype Spelling = Spelling(before: string, p: Option<Prefix>, after: string, comment: string)

  function TextIn(n: Spelling): string {
    match n.p
    case Some(p) => Print(p)
    case None => ""
  }

  function Spelled(n: Spelling): string {
    n.before + TextIn(n) + n.after + n.comment
  }

  predicate IsSpelling(n: Spelling) {
    && Spaces(n.before) && Spaces(n.after) && (n.comment == "" || n.comment[0] == '#')
    && (n.p.Some? ==> IsBlock(n.p.value) && n.p.value.fam.V4?)
  }

  predicate OneLine(n: Spelling) {
    '\n' !in n.before && '\n' !in n.after && '\n' !in n.comment
  }

  /** The prefixes the lines spell, in order. */
  function Said(ns: seq<Spelling>): seq<Prefix> {
    if ns == [] then [] else (if ns[0].p.Some? then [ns[0].p.value] else []) + Said(ns[1..])
  }

  function AllSpelled(ns: seq<Spelling>): seq<string> {
    seq(|ns|, i requires 0 <= i < |ns| => Spelled(ns[i]))
  }

  lemma TextVisible(n: Spelling)
    requires IsSpelling(n)
    ensures n.p.Some? ==> Visible(TextIn(n)) && '#' !in TextIn(n) && '\n' !in TextIn(n) && |TextIn(n)| < 20
  {
    hide Spaces, Print, Aligned;
    if n.p.Some? { PrintShape(n.p.value); }
  }

  /** A carriage return at the end belongs to the white space or to the comment. */
  lemma DropCrSpelled(n: Spelling) returns (n': Spelling)
    requires IsSpelling(n)
    ensures IsSpelling(n') && n'.p == n.p && DropCr(Spelled(n)) == Spelled(n')
  {
    hide Spaces, Print, IsBlock, SpaceEnd;
    TextVisible(n);
    var s := Spelled(n);
    if s == "" || s[|s| - 1] != '\r' {
      n' := n;
    } else if n.comment != "" {
      n' := n.(comment := n.comment[..|n.comment| - 1]);
    } else if n.after != "" {
      SpacesEnd(n.after);
      CrEnd(n.after);
      n' := n.(after := n.after[..|n.after| - 1]);
    } else {
      SpacesEnd(n.before);
      CrEnd(n.before);
      n' := n.(before := n.before[..|n.before| - 1]);
    }
  }

  lemma CrEnd(s: string)
    requires s != "" && s[|s| - 1] == '\r'
    ensures SpaceEnd(s) == 1
  {
    assert s[|s| - 1..] == "\r";
  }

  /** Such a line does not start with a byte-order mark, and it reads as its prefix, if any. */
  lemma SpelledText(n: Spelling)
    requires IsSpelling(n)
    ensures !(BOM <= Spelled(n)) && Cleaned(Spelled(n)) == TextIn(n)
  {
    hide Print, IsBlock, Spaces, Cleaned;
    TextVisible(n);
    SpacesPlain(n.before);
    SpacesPlain(n.after);
    CleanedDecorated(n.before, TextIn(n), n.after, n.comment);
    assert Spelled(n) != "" ==> (Spelled(n)[0] ==
      if n.before != "" then n.before[0] else if TextIn(n) != "" then TextIn(n)[0]
      else if n.after != "" then n.after[0] else '#');
  }

  lemma LineText(lines: seq<string>, k: nat, n: Spelling)
    requires k < |lines| && lines[k] == Spelled(n) && IsSpelling(n)
    ensures TextOf(lines, k) == TextIn(n)
    ensures !(BOM <= DropCr(lines[k]))
  {
    hide Spelled, IsSpelling, Cleaned, DropCr;
    var n' := DropCrSpelled(n);
    SpelledText(n');
  }

  /** The texts of spelled lines are the prefixes printed. */
  lemma {:induction false} SpelledTexts(ns: seq<Spelling>, lines: seq<string>, k: nat)
    requires k <= |ns| && lines == AllSpelled(ns) && forall i :: 0 <= i < |ns| ==> IsSpelling(ns[i])
    ensures Texts(lines, k) == Printed(Said(ns[k..]))
    decreases |ns| - k
  {
    hide TextOf, IsSpelling, Spelled, Print;
    if k < |ns| {
      SpelledTexts(ns, lines, k + 1);
      LineText(lines, k, ns[k]);
      var n, rest := ns[k], Said(ns[k + 1..]);
      assert ns[k..][0] == n && ns[k..][1..] == ns[k + 1..];
      if n.p.Some? {
        assert Printed([n.p.value] + rest) == [Print(n.p.value)] + Printed(rest);
        PrintNotEmpty(n);
      } else {
        assert [] + rest == rest;
      }
    }
  }

  lemma PrintNotEmpty(n: Spelling)
    requires IsSpelling(n) && n.p.Some?
    ensures TextIn(n) == Print(n.p.value) != ""
  {
    TextVisible(n);
  }

  /** An empty last line has no text. */
  lemma {:induction false} EmptyLast(lines: seq<string>, k: nat)
    requires lines != [] && lines[|lines| - 1] == "" && k < |lines|
    ensures Texts(lines, k) == Texts(lines[..|lines| - 1], k)
    decreases |lines| - k
  {
    hide TextOf;
    var front := lines[..|lines| - 1];
    if k < |front| {
      EmptyLast(lines, k + 1);
      SameText(front, lines, k);
    } else {
      NoText(lines, k);
    }
  }

  lemma SameText(a: seq<string>, b: seq<string>, k: nat)
    requires k < |a| && k < |b| && a[k] == b[k]
    ensures TextOf(a, k) == TextOf(b, k)
  {
  }

  lemma NoText(lines: seq<string>, k: nat)
    requires k < |lines| && lines[k] == ""
    ensures TextOf(lines, k) == ""
  {
    LineText(lines, k, Spelling("", None, "", ""));
  }

  /** The lines of a file with or without a newline at its end. */
  function Ended(text: string, closed: bool): string {
    if closed then text + "\n" else text
  }

  lemma ClosedLines(lines: seq<string>)
    requires lines != [] && forall i :: 0 <= i < |lines| ==> '\n' !in lines[i]
    ensures RawLines(Join(lines) + "\n") == lines
  {
    hide Lines, Join;
    LinesOfJoin(lines);
    LinesConcat(Join(lines), "");
    assert Join(lines) + "\n" + "" == Join(lines) + "\n";
    LinesOfLine("");
    assert (lines + [""])[..|lines|] == lines;
  }

  lemma OpenLines(lines: seq<string>)
    requires lines != [] && forall i :: 0 <= i < |lines| ==> '\n' !in lines[i]
    ensures RawLines(Join(lines)) == if lines[|lines| - 1] == "" then lines[..|lines| - 1] else lines
  {
    hide Lines, Join;
    LinesOfJoin(lines);
  }

  lemma RawTexts(lines: seq<string>, closed: bool)
    requires lines != [] && forall i :: 0 <= i < |lines| ==> '\n' !in lines[i]
    ensures var raw := RawLines(Ended(Join(lines), closed));
            Texts(raw, 0) == Texts(lines, 0) && (AllFit(lines) ==> AllFit(raw))
  {
    hide Texts, RawLines, Join;
    if closed { ClosedLines(lines); } else { OpenLines(lines); }
    if lines[|lines| - 1] == "" { EmptyLast(lines, 0); }
  }

  /** A file of such lines, with or without a byte-order mark in front and a newline at its end. */
  function FileOf(ns: seq<Spelling>, marked: bool, closed: bool): string {
    Ended((if marked then BOM else "") + Join(AllSpelled(ns)), closed)
  }

  predicate FitsWith(ns: seq<Spelling>, marked: bool) {
    && (forall i :: 0 <= i < |ns| ==> Fits(Spelled(ns[i])))
    && (marked && ns != [] ==> Fits(BOM + Spelled(ns[0])))
  }

  lemma MarkedJoin(lines: seq<string>)
    requires lines != []
    ensures BOM + Join(lines) == Join(lines[0 := BOM + lines[0]])
  {
    var marked := lines[0 := BOM + lines[0]];
    assert marked[1..] == lines[1..];
    if |lines| > 1 {
      assert BOM + (lines[0] + "\n" + Join(lines[1..])) == BOM + lines[0] + "\n" + Join(lines[1..]);
    }
  }

  lemma SpelledLines(ns: seq<Spelling>)
    requires forall i :: 0 <= i < |ns| ==> IsSpelling(ns[i]) && OneLine(ns[i])
    ensures forall i :: 0 <= i < |ns| ==> '\n' !in AllSpelled(ns)[i]
  {
    hide IsSpelling, Print;
    forall i | 0 <= i < |ns| ensures '\n' !in AllSpelled(ns)[i] {
      TextVisible(ns[i]);
      NoTextNoNewline(ns[i]);
    }
  }

  lemma NoTextNoNewline(n: Spelling)
    requires n.p.Some? ==> '\n' !in TextIn(n)
    ensures '\n' !in TextIn(n)
  {
  }

  /**
    What an operator may write. A file whose lines fit and each hold white space, a printed IPv4
    prefix or nothing, white space and perhaps a comment, with or without a byte-order mark in front
    and a newline at its end, loads as exactly those prefixes; above 1 MiB it is refused.
    */
  lemma SpelledFile(parse: Parser, ns: seq<Spelling>, marked: bool, closed: bool, path: string)
    requires GoodParser(parse) && path != "" && ns != []
    requires (forall i :: 0 <= i < |ns| ==> IsSpelling(ns[i]) && OneLine(ns[i])) && FitsWith(ns, marked)
    ensures var text := FileOf(ns, marked, closed);
            Loaded(path, Regular(text), 4, parse) == if |text| <= MAX_FILE then Ok(Said(ns)) else Err(TooLarge)
  {
    hide *;
    MarkedLinesSay(ns, marked);
    SaidV4(ns);
    var lines := MarkedLines(ns, marked);
    RawTexts(lines, closed);
    FileText(ns, marked, closed);
    TextsLoad(parse, Said(ns), RawLines(FileOf(ns, marked, closed)));
    LoadedRegular(path, FileOf(ns, marked, closed), 4, parse);
  }

  lemma LoadedRegular(path: string, text: string, family: int, parse: Parser)
    requires GoodParser(parse) && path != ""
    ensures Loaded(path, Regular(text), family, parse) ==
            if |text| > MAX_FILE then Err(TooLarge) else Load(parse, family, RawLines(text), 0, [])
  {
    hide GoodParser, Load, RawLines;
  }

  /** The lines of the file, the mark at the start of the first. */
  function MarkedLines(ns: seq<Spelling>, marked: bool): seq<string>
    requires ns != []
  {
    var plain := AllSpelled(ns);
    if marked then plain[0 := BOM + plain[0]] else plain
  }

  lemma FileText(ns: seq<Spelling>, marked: bool, closed: bool)
    requires ns != []
    ensures FileOf(ns, marked, closed) == Ended(Join(MarkedLines(ns, marked)), closed)
  {
    hide Join, Spelled, Ended;
    if marked { MarkedJoin(AllSpelled(ns)); } else { assert "" + Join(AllSpelled(ns)) == Join(AllSpelled(ns)); }
  }

  lemma MarkedLinesSay(ns: seq<Spelling>, marked: bool)
    requires ns != [] && FitsWith(ns, marked) && forall i :: 0 <= i < |ns| ==> IsSpelling(ns[i]) && OneLine(ns[i])
    ensures var lines := MarkedLines(ns, marked);
            && Texts(lines, 0) == Printed(Said(ns)) && AllFit(lines) && lines != []
            && forall i :: 0 <= i < |lines| ==> '\n' !in lines[i]
  {
    hide Texts, Print, Spelled, DropCr, IsSpelling, OneLine, Fits, Printed, Said;
    var plain := AllSpelled(ns);
    SpelledLines(ns);
    SpelledTexts(ns, plain, 0);
    assert ns[0..] == ns;
    LineText(plain, 0, ns[0]);
    if marked { Marked(plain); }
  }

  lemma {:induction false} SaidV4(ns: seq<Spelling>)
    requires forall i :: 0 <= i < |ns| ==> IsSpelling(ns[i])
    ensures AllV4(Said(ns))
  {
    hide IsBlock, Spaces;
    if ns != [] { SaidV4(ns[1..]); }
  }

  /** The lines of the file target's output, or the one empty line of an empty list. */
  function Plainly(ps: seq<Prefix>): seq<Spelling> {
    if ps == [] then [Spelling("", None, "", "")]
    else seq(|ps|, i requires 0 <= i < |ps| => Spelling("", Some(ps[i]), "", ""))
  }

  lemma PlainlySaid(ps: seq<Prefix>)
    requires AllV4(ps)
    ensures AllSpelled(Plainly(ps)) == if ps == [] then [""] else Printed(ps)
    ensures forall i :: 0 <= i < |Plainly(ps)| ==> IsSpelling(Plainly(ps)[i]) && OneLine(Plainly(ps)[i])
    ensures FitsWith(Plainly(ps), false)
  {
    hide Print, IsBlock;
    forall i | 0 <= i < |ps| ensures Spelled(Plainly(ps)[i]) == Print(ps[i]) && Fits(Print(ps[i])) {
      assert "" + Print(ps[i]) + "" + "" == Print(ps[i]);
      TextVisible(Plainly(ps)[i]);
    }
  }

  lemma {:induction false} SaidPlainly(ps: seq<Prefix>)
    ensures Said(Plainly(ps)) == ps
  {
    if |ps| > 1 {
      SaidPlainly(ps[1..]);
      assert Plainly(ps)[1..] == Plainly(ps[1..]);
      assert [ps[0]] + ps[1..] == ps;
    } else {
      assert Plainly(ps)[1..] == [];
    }
  }

  /**
    The file target's output (target.go:262), given back as an extras file, is the list it was
    rendered from, as long as it is within the size limit.
    */
  lemma RoundTrip(parse: Parser, ps: seq<Prefix>, path: string)
    requires GoodParser(parse) && AllV4(ps) && path != ""
    ensures var text := Join(Printed(ps)) + "\n";
            Loaded(path, Regular(text), 4, parse) == if |text| <= MAX_FILE then Ok(ps) else Err(TooLarge)
  {
    hide GoodParser, Print, Loaded, AllV4, IsSpelling, OneLine, FitsWith, Said;
    PlainlySaid(ps);
    SaidPlainly(ps);
    SpelledFile(parse, Plainly(ps), false, true, path);
    assert "" + Join(Printed(ps)) == Join(Printed(ps));
  }
}
