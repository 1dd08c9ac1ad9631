/** The opcode walk of `src/scanner/ml_classifier.py`. */
module Bytecode {
  import opened Common

  type Byte = b: int | 0 <= b < 256

  /** Bytes of immediate data: PUSH1 to PUSH32 carry 1 to 32, nothing else carries any. */
  function PushSize(op: Byte): (n: nat)
    ensures n <= 32
  {
    if 0x60 <= op <= 0x7F then op - 0x60 + 1 else 0
  }

  /** The next-instruction function N(i, w) of section 9.4.3 of the Ethereum Yellow Paper. */
  function NextInstruction(i: nat, op: Byte): nat {
    if 0x60 <= op <= 0x7F then i + op - 0x60 + 2 else i + 1
  }

  /** PUSH1 is 0x60 and PUSHk carries k bytes; the walk steps over them. */
  lemma PushCarriesData(i: nat, op: Byte, k: nat)
    ensures PushSize(op) == k <==> (1 <= k <= 32 && op == 0x5F + k) || (k == 0 && !(0x5F < op <= 0x5F + 32))
    ensures NextInstruction(i, op) == i + 1 + PushSize(op)
  {
  }

  /** The positions at which instructions start, from `i` on, by the recursion of that section. */
  function Starts(code: seq<Byte>, i: nat): (r: set<nat>)
    ensures forall k :: k in r ==> i <= k < |code|
    decreases |code| - i
  {
    if i >= |code| then {} else {i} + Starts(code, NextInstruction(i, code[i]))
  }

  /** How often `op` is counted by the walk from `i`. */
  function CountFrom(code: seq<Byte>, i: nat, op: Byte): nat
    decreases |code| - i
  {
    if i >= |code| then 0
    else (if code[i] == op then 1 else 0) + CountFrom(code, NextInstruction(i, code[i]), op)
  }

  function At(code: seq<Byte>, i: nat, op: Byte): set<nat> {
    set k | k in Starts(code, i) && code[k] == op
  }

  /** The count is the number of instruction starts that hold the opcode, on any
      bytes, with a truncated last PUSH or not. */
  lemma {:induction false} CountIsStarts(code: seq<Byte>, i: nat, op: Byte)
    ensures CountFrom(code, i, op) == |At(code, i, op)|
    decreases |code| - i
  {
    if i >= |code| {
      assert At(code, i, op) == {};
    } else {
      var n := NextInstruction(i, code[i]);
      CountIsStarts(code, n, op);
      var rest := At(code, n, op);
      assert i !in rest;
      if code[i] == op {
        assert At(code, i, op) == {i} + rest;
      } else {
        assert At(code, i, op) == rest;
      }
    }
  }

  // ---- encoding ----

  datatype Instruction = Instruction(op: Byte, data: seq<Byte>)

  predicate Complete(x: Instruction) {
    |x.data| == PushSize(x.op)
  }

  function Encode(prog: seq<Instruction>): seq<Byte> {
    if prog == [] then [] else [prog[0].op] + prog[0].data + Encode(prog[1..])
  }

  /** The first instruction of `code` and the bytes after it; the data of a last PUSH may be short. */
  function FirstOf(code: seq<Byte>): (r: (Instruction, seq<Byte>))
    requires code != []
    ensures |r.1| < |code|
  {
    var n := PushSize(code[0]) + 1;
    if |code| <= n then (Instruction(code[0], code[1..]), []) else (Instruction(code[0], code[1..n]), code[n..])
  }

  /** The instructions of `code`. */
  function Decode(code: seq<Byte>): seq<Instruction>
    decreases |code|
  {
    if code == [] then []
    else
      var (x, rest) := FirstOf(code);
      [x] + Decode(rest)
  }

  function Histogram(prog: seq<Instruction>, op: Byte): nat {
    if prog == [] then 0 else (if prog[0].op == op then 1 else 0) + Histogram(prog[1..], op)
  }

  /** Decoding inverts encoding. */
  lemma {:induction false} DecodeEncode(prog: seq<Instruction>)
    requires forall i :: 0 <= i < |prog| ==> Complete(prog[i])
    ensures Decode(Encode(prog)) == prog
  {
    if prog != [] {
      var x, code := prog[0], Encode(prog);
      var n := |x.data|;
      assert code[0] == x.op && code[1..n + 1] == x.data && code[n + 1..] == Encode(prog[1..]);
      DecodeEncode(prog[1..]);
      if prog[1..] == [] {
        assert code[1..] == x.data && prog == [x];
      } else {
        assert prog == [x] + prog[1..];
        EncodeNonEmpty(prog[1..]);
      }
    }
  }

  lemma EncodeNonEmpty(prog: seq<Instruction>)
    requires prog != []
    ensures Encode(prog) != []
  {
  }

  /** Decoding loses no byte, whatever the bytes. */
  lemma {:induction false} EncodeDecode(code: seq<Byte>)
    ensures Encode(Decode(code)) == code
    decreases |code|
  {
    if code != [] {
      hide Encode, Decode, FirstOf;
      var (x, rest) := FirstOf(code);
      DecodeFirst(code);
      FirstSplits(code);
      EncodeDecode(rest);
      EncodeFirst(x, Decode(rest));
    }
  }

  lemma FirstSplits(code: seq<Byte>)
    requires code != []
    ensures var (x, rest) := FirstOf(code);
            [x.op] + x.data + rest == code
  {
    var n := PushSize(code[0]) + 1;
    hide PushSize;
    if |code| > n {
      assert code[1..] == code[1..n] + code[n..];
    }
    assert code == [code[0]] + code[1..];
  }

  lemma DecodeFirst(code: seq<Byte>)
    requires code != []
    ensures Decode(code) == [FirstOf(code).0] + Decode(FirstOf(code).1)
  {
    hide FirstOf;
  }

  lemma EncodeFirst(x: Instruction, rest: seq<Instruction>)
    ensures Encode([x] + rest) == [x.op] + x.data + Encode(rest)
  {
    assert ([x] + rest)[1..] == rest;
  }

  lemma {:induction false} CountShift(code: seq<Byte>, k: nat, i: nat, op: Byte)
    requires k <= |code|
    ensures CountFrom(code, k + i, op) == CountFrom(code[k..], i, op)
    decreases |code| - i
  {
    if k + i < |code| {
      CountShift(code, k, NextInstruction(i, code[k + i]), op);
    }
  }

  /** On any bytes the walk counts the opcodes of the decoded program. */
  lemma {:induction false} CountIsHistogram(code: seq<Byte>, op: Byte)
    ensures CountFrom(code, 0, op) == Histogram(Decode(code), op)
    decreases |code|
  {
    if code != [] {
      hide Histogram, Decode, FirstOf, CountFrom;
      var (x, rest) := FirstOf(code);
      DecodeFirst(code);
      FirstIsCounted(code, op);
      CountIsHistogram(rest, op);
      CountsFirst(x, Decode(rest), op);
    }
  }

  lemma FirstIsCounted(code: seq<Byte>, op: Byte)
    requires code != []
    ensures var (x, rest) := FirstOf(code);
            CountFrom(code, 0, op) == (if x.op == op then 1 else 0) + CountFrom(rest, 0, op)
  {
    hide CountFrom, NextInstruction, FirstOf;
    var next := NextInstruction(0, code[0]);
    NextFollowsFirst(code);
    CountStep(code, 0, op);
    if |code| > next {
      CountShift(code, next, 0, op);
    } else {
      CountStep(code, next, op);
      CountStep([], 0, op);
    }
  }

  lemma NextFollowsFirst(code: seq<Byte>)
    requires code != []
    ensures var next, (x, rest) := NextInstruction(0, code[0]), FirstOf(code);
            x.op == code[0] && rest == if |code| > next then code[next..] else []
  {
  }

  lemma CountStep(code: seq<Byte>, i: nat, op: Byte)
    ensures CountFrom(code, i, op)
         == if i >= |code| then 0 else (if code[i] == op then 1 else 0) + CountFrom(code, NextInstruction(i, code[i]), op)
  {
  }

  lemma CountsFirst(x: Instruction, rest: seq<Instruction>, op: Byte)
    ensures Histogram([x] + rest, op) == (if x.op == op then 1 else 0) + Histogram(rest, op)
  {
    assert ([x] + rest)[1..] == rest;
  }

  /** The walk over the encoding of a program yields the histogram of its
      opcodes: PUSH data is never mistaken for instructions. */
  lemma CountOfEncoding(prog: seq<Instruction>, op: Byte)
    requires forall i :: 0 <= i < |prog| ==> Complete(prog[i])
    ensures CountFrom(Encode(prog), 0, op) == Histogram(prog, op)
  {
    DecodeEncode(prog);
    CountIsHistogram(Encode(prog), op);
  }

  // ---- the hexadecimal text ----

  predicate IsHex(c: char) {
    '0' <= c <= '9' || 'a' <= c <= 'f' || 'A' <= c <= 'F'
  }

  function HexValue(c: char): (v: nat)
    requires IsHex(c)
    ensures v < 16
  {
    if '0' <= c <= '9' then (c - '0') as nat
    else if 'a' <= c <= 'f' then (c - 'a') as nat + 10
    else (c - 'A') as nat + 10
  }

  /** Python's `s.replace("0x", "")`, left to right. */
  function DropPrefix(s: string): string {
    if |s| >= 2 && s[0] == '0' && s[1] == 'x' then DropPrefix(s[2..])
    else if s == "" then ""
    else [s[0]] + DropPrefix(s[1..])
  }

  function DropSpaces(s: string): string {
    if s == "" then "" else (if s[0] == ' ' then "" else [s[0]]) + DropSpaces(s[1..])
  }

  /** The text handed to `bytes.fromhex`: cleaned and of even length. */
  function Clean(s: string): (r: string)
    ensures |r| % 2 == 0
  {
    var t := DropSpaces(DropPrefix(s));
    if |t| % 2 != 0 then t[..|t| - 1] else t
  }

  /** The ASCII white space that `bytes.fromhex` skips: blank, tab, line feed,
      vertical tab, form feed and carriage return. */
  predicate IsSpace(c: char) {
    c == ' ' || '\t' <= c <= '\r'
  }

  function SkipSpace(s: string): (r: string)
    ensures |r| <= |s|
  {
    if s != "" && IsSpace(s[0]) then SkipSpace(s[1..]) else s
  }

  /** `bytes.fromhex`: pairs of digits, with white space before any of them; None
      stands for its ValueError. */
  function FromHex(s: string): Option<seq<Byte>>
    decreases |s|
  {
    var t := SkipSpace(s);
    if t == "" then Some([])
    else if |t| < 2 || !IsHex(t[0]) || !IsHex(t[1]) then None
    else
      var rest := FromHex(t[2..]);
      if rest.None? then None else Some([16 * HexValue(t[0]) + HexValue(t[1])] + rest.value)
  }

  lemma FromHexNothing()
    ensures FromHex("") == Some([])
  {
  }

  lemma FromHexHead(s: string)
    requires |s| >= 2 && IsHex(s[0]) && IsHex(s[1])
    ensures var rest := FromHex(s[2..]);
            FromHex(s) == if rest.None? then None else Some([16 * HexValue(s[0]) + HexValue(s[1])] + rest.value)
  {
    hide HexValue;
  }

  // ---- what the text says ----

  /** `c` is the digit of value `v`, in either case. */
  predicate StandsFor(c: char, v: nat) {
    v < 16 && ("0123456789abcdef"[v] == c || "0123456789ABCDEF"[v] == c)
  }

  lemma DigitValue(c: char, v: nat)
    requires StandsFor(c, v)
    ensures IsHex(c) && HexValue(c) == v && c != 'x' && c != ' '
  {
  }

  /** `s` spells `code`, two digits a byte, each in either case. */
  ghost predicate Spells(s: string, code: seq<Byte>) {
    && |s| == 2 * |code|
    && forall k :: 0 <= k < |code| ==> StandsFor(s[2 * k], code[k] / 16) && StandsFor(s[2 * k + 1], code[k] % 16)
  }

  lemma SpellsRest(s: string, code: seq<Byte>)
    requires Spells(s, code) && code != []
    ensures |s| >= 2 && StandsFor(s[0], code[0] / 16) && StandsFor(s[1], code[0] % 16) && Spells(s[2..], code[1..])
  {
    hide StandsFor;
    assert s[0] == s[2 * 0];
    forall k | 0 <= k < |code| - 1
      ensures StandsFor(s[2..][2 * k], code[1..][k] / 16) && StandsFor(s[2..][2 * k + 1], code[1..][k] % 16)
    {
      assert s[2..][2 * k] == s[2 * (k + 1)] && s[2..][2 * k + 1] == s[2 * (k + 1) + 1];
    }
  }

  lemma {:induction false} FromSpelling(s: string, code: seq<Byte>)
    requires Spells(s, code)
    ensures FromHex(s) == Some(code) && 'x' !in s && ' ' !in s
  {
    if code == [] {
      FromHexNothing();
      assert s == "";
    } else {
      hide *;
      SpellsRest(s, code);
      FromSpelling(s[2..], code[1..]);
      FirstByte(s, code);
    }
  }

  lemma FirstByte(s: string, code: seq<Byte>)
    requires |s| >= 2 && code != [] && StandsFor(s[0], code[0] / 16) && StandsFor(s[1], code[0] % 16)
    requires FromHex(s[2..]) == Some(code[1..]) && 'x' !in s[2..] && ' ' !in s[2..]
    ensures FromHex(s) == Some(code) && 'x' !in s && ' ' !in s
  {
    hide FromHex, HexValue, IsHex, StandsFor;
    DigitValue(s[0], code[0] / 16);
    DigitValue(s[1], code[0] % 16);
    FromHexHead(s);
    assert s == [s[0], s[1]] + s[2..];
    assert code == [code[0]] + code[1..];
  }

  lemma {:induction false} NothingToDrop(s: string)
    ensures 'x' !in s ==> DropPrefix(s) == s
    ensures ' ' !in s ==> DropSpaces(s) == s
  {
    if s != "" {
      NothingToDrop(s[1..]);
      assert s == [s[0]] + s[1..];
      assert 'x' !in s ==> 'x' !in s[1..];
    }
  }

  /** `0x` is dropped wherever it stands. */
  lemma {:induction false} PrefixIsDropped(s: string, t: string)
    requires 'x' !in s
    ensures DropPrefix(s + "0x" + t) == s + DropPrefix(t)
  {
    var u := s + "0x" + t;
    if s == "" {
      assert u[0] == '0' && u[1] == 'x' && u[2..] == t;
    } else {
      assert u[0] == s[0] && u[1..] == s[1..] + "0x" + t && u[1] == (s + "0x")[1];
      assert u[1] != 'x';
      PrefixIsDropped(s[1..], t);
    }
  }

  /** So is a blank. */
  lemma {:induction false} BlankIsDropped(s: string, t: string)
    ensures DropSpaces(s + " " + t) == DropSpaces(s + t)
  {
    var u := s + " " + t;
    if s == "" {
      assert u[0] == ' ' && u[1..] == t && s + t == t;
    } else {
      assert u[0] == s[0] && u[1..] == s[1..] + " " + t;
      assert (s + t)[0] == s[0] && (s + t)[1..] == s[1..] + t;
      BlankIsDropped(s[1..], t);
    }
  }

  /** Text that spells bytes is read as these bytes, in either case of its
      digits, with or without the `0x` prefix and a stray character at the end. */
  lemma HexTextIsRead(s: string, code: seq<Byte>, stray: string)
    requires Spells(s, code) && |stray| <= 1 && 'x' !in stray && ' ' !in stray
    ensures FromHex(Clean(s + stray)) == Some(code)
    ensures FromHex(Clean("0x" + s + stray)) == Some(code)
  {
    hide DropPrefix, DropSpaces, FromHex, StandsFor;
    var t := s + stray;
    FromSpelling(s, code);
    NothingToDrop(t);
    PrefixIsDropped("", t);
    assert "0x" + s + stray == "" + "0x" + t && "" + t == t;
    assert |stray| == 1 ==> t[..|t| - 1] == s;
    assert |stray| == 0 ==> t == s;
  }

  /** A blank inside text without a prefix changes nothing. */
  lemma BlanksAreIgnored(s: string, t: string)
    requires 'x' !in s && 'x' !in t
    ensures Clean(s + " " + t) == Clean(s + t)
  {
    hide DropPrefix, DropSpaces;
    NothingToDrop(s + " " + t);
    NothingToDrop(s + t);
    BlankIsDropped(s, t);
  }

  function HexDigit(v: nat): (c: char)
    requires v < 16
    ensures StandsFor(c, v)
  {
    "0123456789abcdef"[v]
  }

  function ToHex(code: seq<Byte>): (s: string)
    ensures |s| == 2 * |code|
  {
    if code == [] then "" else ToHex(code[..|code| - 1]) + [HexDigit(code[|code| - 1] / 16), HexDigit(code[|code| - 1] % 16)]
  }

  lemma {:induction false} ToHexSpells(code: seq<Byte>)
    ensures Spells(ToHex(code), code)
  {
    hide HexDigit, StandsFor;
    if code != [] {
      ToHexSpells(code[..|code| - 1]);
    }
  }

  /** Encoded bytes survive cleaning and parsing, with the `0x` prefix or without. */
  lemma HexRoundTrip(code: seq<Byte>)
    ensures FromHex(Clean("0x" + ToHex(code))) == Some(code)
    ensures FromHex(Clean(ToHex(code))) == Some(code)
  {
    hide ToHex, Spells, Clean, FromHex;
    ToHexSpells(code);
    HexTextIsRead(ToHex(code), code, "");
    assert ToHex(code) + "" == ToHex(code) && "0x" + ToHex(code) + "" == "0x" + ToHex(code);
  }

  // ---- the extractor ----

  /** The numbers the extractor reports.  `total` is the divisor of the frequencies. */
  datatype Features = Features(
    counts: seq<nat>,
    total: nat,
    selfdestruct: bool,
    timestamp: bool,
    delegatecall: bool,
    length: nat)

  /** What a feature vector says about `code`: every count is the number of
      instruction starts with that opcode, and a flag is set exactly when its
      opcode occurs at one. */
  ghost predicate Describes(f: Features, code: seq<Byte>) {
    && |f.counts| == 256
    && (forall op: Byte :: f.counts[op] == |At(code, 0, op)|)
    && f.total == (if code == [] then 1 else |code|)
    && (f.selfdestruct <==> exists k :: k in Starts(code, 0) && code[k] == 0xFF)
    && (f.timestamp <==> exists k :: k in Starts(code, 0) && code[k] == 0x42)
    && (f.delegatecall <==> exists k :: k in Starts(code, 0) && code[k] == 0xF4)
    && f.length == |code|
  }

  lemma PresentIff(code: seq<Byte>, op: Byte)
    ensures CountFrom(code, 0, op) > 0 <==> exists k :: k in Starts(code, 0) && code[k] == op
  {
    CountIsStarts(code, 0, op);
    if CountFrom(code, 0, op) > 0 {
      assert At(code, 0, op) != {};
      var k :| k in At(code, 0, op);
    }
    if k :| k in Starts(code, 0) && code[k] == op {
      assert k in At(code, 0, op);
    }
  }

  /** The counting loop. */
  method CountOpcodes(code: seq<Byte>) returns (counts: array<nat>)
    ensures fresh(counts) && counts.Length == 256
    ensures forall op: Byte :: counts[op] == CountFrom(code, 0, op)
  {
    counts := new nat[256](_ => 0);
    var i := 0;
    while i < |code|
      invariant forall op: Byte :: counts[op] + CountFrom(code, i, op) == CountFrom(code, 0, op)
      decreases |code| - i
    {
      var opcode := code[i];
      counts[opcode] := counts[opcode] + 1;
      if 0x60 <= opcode <= 0x7F {
        var pushSize := opcode - 0x60 + 1;
        i := i + pushSize + 1;
      } else {
        i := i + 1;
      }
    }
  }

  /** Features of hex-encoded bytecode; text that is not hexadecimal yields the empty features. */
  method Extract(bytecodeHex: string) returns (f: Features)
    ensures var code := FromHex(Clean(bytecodeHex));
            if code.Some? then Describes(f, code.value)
            else f == Features(seq(256, _ => 0), 1, false, false, false, 0)
  {
    var parsed := FromHex(Clean(bytecodeHex));
    if parsed.None? {
      return Features(seq(256, _ => 0), 1, false, false, false, 0);
    }
    var code := parsed.value;
    var counts := CountOpcodes(code);
    f := Features(counts[..], if |code| > 1 then |code| else 1,
                  counts[0xFF] > 0, counts[0x42] > 0, counts[0xF4] > 0, |code|);
    forall op: Byte
      ensures f.counts[op] == |At(code, 0, op)|
    {
      CountIsStarts(code, 0, op);
    }
    PresentIff(code, 0xFF);
    PresentIff(code, 0x42);
    PresentIff(code, 0xF4);
  }
}
