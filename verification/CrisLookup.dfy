/**
 Opcode lookup of the CRIS disassembler (cris-dis.c).  get_opcode_entry searches an opcode table
 for the best match and remembers the answers in one table for plain instructions and five for
 prefixed ones, chosen by the class of the prefix.  The memo is right because the matching
 constraints see a prefix only through that class.
 */
module CrisLookup {

  import opened CrisWords
  import opened CrisBits

  const NO_PREFIX: Insn := 0
  const BDAP_QUICK: Insn := 0x0100
  const DIP: Insn := 0x0970

  datatype Family = V0_V10 | Common | V32

  datatype Version = All | Warning | V0_3 | V3P | V8 | V8P | SimV0_10 | V0_10 | V3_10 | V8_10 | V10 | V10P | V32P

  datatype SpecReg = SpecReg(number: nat, size: nat, version: Version, warned: bool)

  datatype Opcode = Opcode(mask: Insn, lose: Insn, args: string, version: Version)

  /** The static tables of the disassembler. */
  datatype Tables = Tables(opcodes: seq<Opcode>, specRegs: seq<SpecReg>, family: Family)

  datatype Option<T> = None | Some(value: T)

  // ---------- small helpers ----------

  /** Bits 15 to 12 and bits 3 to 0. */
  function High(insn: Insn): nat { (insn >> 12) as nat }
  function Low(insn: Insn): nat { (insn & 15) as nat }

  /** The signed low byte of a prefix. */
  function Offset(prefix: Insn): (r: int)
    ensures -128 <= r < 128
  {
    var o := (prefix & 255) as int;
    if o > 127 then o - 256 else o
  }

  /** The upper field is the number's upper digit; the lower is what becomes the upper by a shift. */
  lemma Fields(insn: Insn)
    ensures High(insn) == insn as nat / 4096 && Low(insn) == High(insn << 12)
  {}

  /** Offsets are signed bytes. */
  lemma Offsets()
    ensures Offset(0x1104) == 4 && Offset(0x117f) == 127 && Offset(0x1180) == -128 && Offset(0x11fc) == -4
  {}

  /** Whether an entry of spec_reg_info's table is usable. */
  predicate Usable(r: SpecReg, family: Family) {
    if family == V32 then
      r.version in {Warning, All, V3P, V8P, V10P, V32P} && !r.warned
    else r.version != V32P
  }

  /** spec_reg_info: the size of the first usable register with this number. */
  function SpecRegSize(regs: seq<SpecReg>, number: nat, family: Family, i: nat): Option<nat>
    requires i <= |regs|
    decreases |regs| - i
  {
    if i == |regs| then None
    else if regs[i].number == number && Usable(regs[i], family) then Some(regs[i].size)
    else SpecRegSize(regs, number, family, i + 1)
  }

  // ---------- constraints ----------

  /** What the constraints are told about a prefix: none, or the template of the opcode it decodes to
      and its offset byte. */
  datatype Prefix = NoPrefix | Prefixed(mask: Insn, offset: int)

  /** The size test of a push prefix: a 32-bit unsigned comparison with the negated offset. */
  predicate PushSize(size: nat, offset: int) { size == (-offset) % 0x1_0000_0000 }

  /** A size that no push prefix matches but those that have a class of their own. */
  predicate GoodSize(size: nat) {
    size in {1, 2, 4} || 128 < size <= 0x1_0000_0000 - 128 || 0x1_0000_0000 <= size
  }

  /** Every special register that an instruction can name has such a size. */
  ghost predicate GoodSizes(t: Tables) {
    forall insn :: var size := SpecRegSize(t.specRegs, High(insn), t.family, 0); size.Some? ==> GoodSize(size.value)
  }

  /** All special registers are 1, 2 or 4 bytes wide, as those of the CRIS are. */
  predicate PowerSizes(regs: seq<SpecReg>) {
    forall i :: 0 <= i < |regs| ==> regs[i].size in {1, 2, 4}
  }

  lemma {:induction false} SpecRegSizes(regs: seq<SpecReg>, number: nat, family: Family, i: nat)
    requires PowerSizes(regs) && i <= |regs|
    ensures var s := SpecRegSize(regs, number, family, i); s.Some? ==> s.value in {1, 2, 4}
    decreases |regs| - i
  {
    if i < |regs| { SpecRegSizes(regs, number, family, i + 1); }
  }

  lemma PowerSizesAreGood(t: Tables)
    requires PowerSizes(t.specRegs)
    ensures GoodSizes(t)
  {
    forall insn
      ensures var size := SpecRegSize(t.specRegs, High(insn), t.family, 0); size.Some? ==> GoodSize(size.value)
    {
      SpecRegSizes(t.specRegs, High(insn), t.family, 0);
    }
  }

  /** cris_constraint from position i on; -1 is no match. */
  function Constraint(t: Tables, args: string, i: nat, insn: Insn, p: Prefix, retval: int, prefixOk: bool): int
    requires i <= |args|
    decreases |args| - i
  {
    if i == |args| then (if p.Prefixed? && !prefixOk then -1 else retval)
    else
      var c := args[i];
      if c == '!' then
        if p.Prefixed? || t.family != V0_V10 then -1 else Constraint(t, args, i + 1, insn, p, retval, prefixOk)
      else if c == 'U' then -1
      else if c == 'M' then
        var tmp := High(insn);
        if tmp != 0 && tmp != 4 && tmp != 8 then -1 else Constraint(t, args, i + 1, insn, p, retval, prefixOk)
      else if c == 'm' then
        if insn & 0x30 == 0x30 then -1 else Constraint(t, args, i + 1, insn, p, retval, prefixOk)
      else if c == 'S' then
        if p.Prefixed? && insn & 0x400 == 0 then Constraint(t, args, i + 1, insn, p, retval, true) else -1
      else if c == 's' || c == 'y' || c == 'Y' then
        if p.Prefixed? then
          if insn & 0x400 != 0 && p.mask == DIP then -1
          else Constraint(t, args, i + 1, insn, p, retval, true)
        else Constraint(t, args, i + 1, insn, p, retval, prefixOk)
      else if c == 'B' then
        if p.Prefixed? && p.mask == BDAP_QUICK && i + 1 < |args| && PushMatches(t, args[i + 1], insn, p.offset)
        then Constraint(t, args, i + 1, insn, p, retval, true) else -1
      else if c == 'D' then
        if High(insn) == Low(insn) then Constraint(t, args, i + 1, insn, p, 5, prefixOk) else -1
      else if c == 'P' then
        if SpecRegSize(t.specRegs, High(insn), t.family, 0).Some?
        then Constraint(t, args, i + 1, insn, p, retval + 3, prefixOk) else -1
      else Constraint(t, args, i + 1, insn, p, retval, prefixOk)
  }

  /** The two forms of a push. */
  predicate PushMatches(t: Tables, next: char, insn: Insn, offset: int) {
    if next == 'P' then
      var size := SpecRegSize(t.specRegs, High(insn), t.family, 0);
      size.Some? && PushSize(size.value, offset)
    else next == 'R' && insn & 0x30 == 0x20 && offset == -4
  }

  // ---------- what a score means ----------

  /** Position i of a template admits the instruction. */
  predicate Admits(t: Tables, args: string, i: nat, insn: Insn, p: Prefix)
    requires i < |args|
  {
    match args[i]
    case '!' => p.NoPrefix? && t.family == V0_V10
    case 'U' => false
    case 'M' => High(insn) in {0, 4, 8}
    case 'm' => insn & 0x30 != 0x30
    case 'S' => p.Prefixed? && insn & 0x400 == 0
    case 's' => PrefixFits(insn, p)
    case 'y' => PrefixFits(insn, p)
    case 'Y' => PrefixFits(insn, p)
    case 'B' => p.Prefixed? && p.mask == BDAP_QUICK && i + 1 < |args| && PushMatches(t, args[i + 1], insn, p.offset)
    case 'D' => High(insn) == Low(insn)
    case 'P' => SpecRegSize(t.specRegs, High(insn), t.family, 0).Some?
    case _ => true
  }

  /** The prefix must not be DIP if there is a side effect. */
  predicate PrefixFits(insn: Insn, p: Prefix) {
    p.NoPrefix? || insn & 0x400 == 0 || p.mask != DIP
  }

  /** Letters that stand for an operand a prefix can supply. */
  predicate TakesPrefix(c: char) { c in "SsyYB" }

  /** From position i on every letter admits the instruction. */
  ghost predicate AllAdmit(t: Tables, args: string, i: nat, insn: Insn, p: Prefix) {
    forall j :: i <= j < |args| ==> Admits(t, args, j, insn, p)
  }

  ghost predicate PrefixTaken(args: string, i: nat) {
    exists j :: i <= j < |args| && TakesPrefix(args[j])
  }

  ghost predicate HasD(args: string, i: nat) {
    exists j :: i <= j < |args| && args[j] == 'D'
  }

  /** The positions of the letter P behind the last D. */
  ghost function LateP(args: string, i: nat): set<nat> {
    set j: nat | i <= j < |args| && args[j] == 'P' && !HasD(args, j)
  }

  /** 5 for an equal pair of registers, and 3 for every special register behind it. */
  ghost function Score(args: string, i: nat, retval: int): (r: int)
    ensures retval >= 0 ==> r >= 0
  {
    (if HasD(args, i) then 5 else retval) + 3 * |LateP(args, i)|
  }

  lemma ScoreStep(args: string, i: nat, retval: int)
    requires i < |args|
    ensures Score(args, i, retval) ==
            Score(args, i + 1, if args[i] == 'D' then 5 else if args[i] == 'P' then retval + 3 else retval)
  {
    if args[i] == 'P' && !HasD(args, i) {
      assert LateP(args, i) == LateP(args, i + 1) + {i};
      assert !HasD(args, i + 1);
    } else {
      assert HasD(args, i) <==> args[i] == 'D' || HasD(args, i + 1);
      assert LateP(args, i) == LateP(args, i + 1);
    }
  }

  lemma AdmitStep(t: Tables, args: string, i: nat, insn: Insn, p: Prefix)
    requires i < |args|
    ensures AllAdmit(t, args, i, insn, p) <==> Admits(t, args, i, insn, p) && AllAdmit(t, args, i + 1, insn, p)
    ensures PrefixTaken(args, i) <==> TakesPrefix(args[i]) || PrefixTaken(args, i + 1)
  {
    hide Admits;
  }

  lemma ConstraintStep(t: Tables, args: string, i: nat, insn: Insn, p: Prefix, retval: int, prefixOk: bool)
    requires i < |args|
    ensures Constraint(t, args, i, insn, p, retval, prefixOk) ==
      if !Admits(t, args, i, insn, p) then -1
      else Constraint(t, args, i + 1, insn, p,
                      if args[i] == 'D' then 5 else if args[i] == 'P' then retval + 3 else retval,
                      prefixOk || (p.Prefixed? && TakesPrefix(args[i])))
  {
    hide PushMatches, SpecRegSize;
  }

  /** A template matches exactly if all its letters admit the instruction and one of them takes the
      prefix, if there is one; the score is then that of the D and P letters. */
  lemma {:induction false} ConstraintMeans(t: Tables, args: string, i: nat, insn: Insn, p: Prefix, retval: int, prefixOk: bool)
    requires i <= |args| && 0 <= retval
    ensures Constraint(t, args, i, insn, p, retval, prefixOk) ==
      if AllAdmit(t, args, i, insn, p) && (p.NoPrefix? || prefixOk || PrefixTaken(args, i)) then Score(args, i, retval)
      else -1
    decreases |args| - i
  {
    if i < |args| {
      ConstraintStep(t, args, i, insn, p, retval, prefixOk);
      AdmitStep(t, args, i, insn, p);
      ScoreStep(args, i, retval);
      hide Constraint, Admits, AllAdmit, PrefixTaken, Score, TakesPrefix;
      if Admits(t, args, i, insn, p) {
        ConstraintMeans(t, args, i + 1, insn, p, if args[i] == 'D' then 5 else if args[i] == 'P' then retval + 3 else retval,
                        prefixOk || (p.Prefixed? && TakesPrefix(args[i])));
      }
    } else {
      assert LateP(args, i) == {};
    }
  }

  predicate Named(r: SpecReg, number: nat, family: Family) { r.number == number && Usable(r, family) }

  ghost predicate FirstNamed(regs: seq<SpecReg>, number: nat, family: Family, i: nat, j: nat) {
    i <= j < |regs| && Named(regs[j], number, family) && forall k :: i <= k < j ==> !Named(regs[k], number, family)
  }

  /** The register information is that of the first usable entry with the number. */
  lemma {:induction false} SpecRegIsFirst(regs: seq<SpecReg>, number: nat, family: Family, i: nat)
    requires i <= |regs|
    ensures match SpecRegSize(regs, number, family, i)
      case None => forall j :: i <= j < |regs| ==> !Named(regs[j], number, family)
      case Some(size) => exists j: nat :: FirstNamed(regs, number, family, i, j) && regs[j].size == size
    decreases |regs| - i
  {
    if i < |regs| {
      if Named(regs[i], number, family) {
        assert FirstNamed(regs, number, family, i, i);
      } else {
        SpecRegIsFirst(regs, number, family, i + 1);
        assert forall j :: FirstNamed(regs, number, family, i + 1, j) ==> FirstNamed(regs, number, family, i, j);
      }
    }
  }

  // ---------- the plain search ----------

  predicate Applicable(v: Version, family: Family) {
    if family == V32 then v in {All, V3P, V8P, V10P, V32P} else v != V32P
  }

  /** Table entries that would abort the disassembler; the tables hold none. */
  predicate Aborts(v: Version, family: Family) { v == V8 || (family != V32 && v == V3_10) }

  /** The architecture versions a table entry is for, first and last; 32 stands for all later ones. */
  function FirstVersion(v: Version): nat {
    match v
    case V3P => 3
    case V3_10 => 3
    case V8 => 8
    case V8P => 8
    case V8_10 => 8
    case V10 => 10
    case V10P => 10
    case V32P => 32
    case _ => 0
  }

  function LastVersion(v: Version): nat {
    match v
    case V0_3 => 3
    case V8 => 8
    case SimV0_10 => 10
    case V0_10 => 10
    case V3_10 => 10
    case V8_10 => 10
    case V10 => 10
    case _ => 32
  }

  /** An opcode is looked at exactly if its versions reach into the family, version 32 or those up to 10;
      so is a special register, where in family 32 one with a warning is not. */
  lemma FamilyExact(v: Version, r: SpecReg, family: Family)
    requires !Aborts(v, family)
    ensures Applicable(v, family) <==>
      if family == V32 then v != Warning && LastVersion(v) == 32 else FirstVersion(v) <= 10
    ensures Usable(r, family) <==>
      if family == V32 then LastVersion(r.version) == 32 && !r.warned else FirstVersion(r.version) <= 10
  {}

  ghost predicate GoodTables(t: Tables) {
    GoodSizes(t) && forall i :: 0 <= i < |t.opcodes| ==> !Aborts(t.opcodes[i].version, t.family)
  }

  /** How well entry k matches, -1 if it does not. */
  function Level(t: Tables, k: nat, insn: Insn, p: Prefix): int
    requires k < |t.opcodes|
  {
    var op := t.opcodes[k];
    if !Applicable(op.version, t.family) || !BitMatch(op.mask, op.lose, insn) then -1
    else
      var c := Constraint(t, op.args, 0, insn, p, 0, false);
      if c < 0 then -1 else c + 2 * NumberOfBits(Either(op.mask, op.lose))
  }

  /** The search loop from entry k on, with the best entry so far; a full match ends it. */
  function Search(t: Tables, k: nat, insn: Insn, p: Prefix, best: Option<nat>, level: int): Option<nat>
    requires k <= |t.opcodes|
    decreases |t.opcodes| - k
  {
    if k == |t.opcodes| then best
    else
      var l := Level(t, k, insn, p);
      if l > level then
        if l >= 32 then Some(k) else Search(t, k + 1, insn, p, Some(k), l)
      else Search(t, k + 1, insn, p, best, level)
  }

  function Best(t: Tables, insn: Insn, p: Prefix): Option<nat> { Search(t, 0, insn, p, None, -1) }

  /** The lookup without any memo.  A prefix that decodes to nothing has no continuation. */
  function Lookup(t: Tables, insn: Insn, prefix: Insn): Option<nat> {
    if prefix == NO_PREFIX then Best(t, insn, NoPrefix)
    else
      var popcode := Best(t, prefix, NoPrefix);
      if popcode.None? || popcode.value >= |t.opcodes| then None
      else Best(t, insn, Prefixed(t.opcodes[popcode.value].mask, Offset(prefix)))
  }

  lemma {:induction false} SearchInRange(t: Tables, k: nat, insn: Insn, p: Prefix, best: Option<nat>, level: int)
    requires k <= |t.opcodes| && (best.Some? ==> best.value < |t.opcodes|)
    ensures var r := Search(t, k, insn, p, best, level); r.Some? ==> r.value < |t.opcodes|
    decreases |t.opcodes| - k
  {
    hide Level;
    if k < |t.opcodes| {
      var l := Level(t, k, insn, p);
      if l > level { SearchInRange(t, k + 1, insn, p, Some(k), l); } else { SearchInRange(t, k + 1, insn, p, best, level); }
    }
  }

  /** The best entry of the first n: it matches, everything before it matches worse, and nothing up to
      n matches better. */
  predicate BestOf(t: Tables, n: nat, insn: Insn, p: Prefix, r: Option<nat>)
    requires n <= |t.opcodes|
  {
    match r
    case None => forall k :: 0 <= k < n ==> Level(t, k, insn, p) < 0
    case Some(m) =>
      && m < n && 0 <= Level(t, m, insn, p)
      && (forall k :: 0 <= k < m ==> Level(t, k, insn, p) < Level(t, m, insn, p))
      && (forall k :: m < k < n ==> Level(t, k, insn, p) <= Level(t, m, insn, p))
  }

  lemma SearchUnfolds(t: Tables, k: nat, insn: Insn, p: Prefix, best: Option<nat>, level: int)
    requires k < |t.opcodes|
    ensures var l := Level(t, k, insn, p);
      Search(t, k, insn, p, best, level) ==
        if l <= level then Search(t, k + 1, insn, p, best, level)
        else if l >= 32 then Some(k)
        else Search(t, k + 1, insn, p, Some(k), l)
  {
    hide Level;
  }

  lemma BestStep(t: Tables, k: nat, insn: Insn, p: Prefix, best: Option<nat>, level: int)
    requires k < |t.opcodes| && BestOf(t, k, insn, p, best)
    requires level == if best.Some? then Level(t, best.value, insn, p) else -1
    ensures BestOf(t, k + 1, insn, p, if Level(t, k, insn, p) > level then Some(k) else best)
  {
    hide Level;
  }

  /** The search result is the best entry of the table, or of the part before and including the first
      full match. */
  lemma {:induction false} SearchFindsBest(t: Tables, k: nat, insn: Insn, p: Prefix, best: Option<nat>, level: int)
    returns (n: nat)
    requires k <= |t.opcodes| && BestOf(t, k, insn, p, best)
    requires level == if best.Some? then Level(t, best.value, insn, p) else -1
    requires level < 32
    ensures k <= n <= |t.opcodes| && BestOf(t, n, insn, p, Search(t, k, insn, p, best, level))
    ensures n == |t.opcodes| || (Search(t, k, insn, p, best, level) == Some(n - 1) && Level(t, n - 1, insn, p) >= 32)
    decreases |t.opcodes| - k
  {
    hide Level, BestOf;
    n := k;
    if k < |t.opcodes| {
      var l := Level(t, k, insn, p);
      SearchUnfolds(t, k, insn, p, best, level);
      hide Search;
      BestStep(t, k, insn, p, best, level);
      if l > level {
        n := k + 1;
        if l < 32 { n := SearchFindsBest(t, k + 1, insn, p, Some(k), l); }
      } else {
        n := SearchFindsBest(t, k + 1, insn, p, best, level);
      }
    }
  }

  /** Entry k of the opcode table describes the instruction. */
  ghost predicate Matches(t: Tables, k: nat, insn: Insn, p: Prefix)
    requires k < |t.opcodes|
  {
    var op := t.opcodes[k];
    && Applicable(op.version, t.family)
    && (forall k :: 0 <= k < 16 ==> (IsSet(op.mask, k) ==> IsSet(insn, k)) && (IsSet(op.lose, k) ==> !IsSet(insn, k)))
    && AllAdmit(t, op.args, 0, insn, p) && (p.NoPrefix? || PrefixTaken(op.args, 0))
  }

  /** How specific it is: two for each bit it fixes, and the score of its template. */
  ghost function Weight(op: Opcode): nat { 2 * |BitsSet(Either(op.mask, op.lose), 16)| + Score(op.args, 0, 0) }

  lemma LevelMeans(t: Tables, k: nat, insn: Insn, p: Prefix)
    requires k < |t.opcodes|
    ensures Level(t, k, insn, p) == if Matches(t, k, insn, p) then Weight(t.opcodes[k]) else -1
  {
    hide Constraint, Admits, Applicable, Score, BitCount, BitsSet, AllAdmit, PrefixTaken, BitMatch, IsSet;
    var op := t.opcodes[k];
    BitMatchMeans(op.mask, op.lose, insn);
    ConstraintMeans(t, op.args, 0, insn, p, 0, false);
    BitCountMeans(Either(op.mask, op.lose), 16);
  }

  /** What a lookup is for: an entry that describes the instruction, such that none before it is as
      specific and none behind it more, unless it fixes everything; no entry only if none describes it. */
  ghost predicate IsBest(t: Tables, insn: Insn, p: Prefix, r: Option<nat>) {
    match r
    case None => forall k :: 0 <= k < |t.opcodes| ==> !Matches(t, k, insn, p)
    case Some(m) =>
      && m < |t.opcodes| && Matches(t, m, insn, p)
      && (forall k :: 0 <= k < m && Matches(t, k, insn, p) ==> Weight(t.opcodes[k]) < Weight(t.opcodes[m]))
      && (Weight(t.opcodes[m]) < 32 ==>
            forall k :: m < k < |t.opcodes| && Matches(t, k, insn, p) ==> Weight(t.opcodes[k]) <= Weight(t.opcodes[m]))
  }

  lemma BestIsBest(t: Tables, insn: Insn, p: Prefix)
    ensures IsBest(t, insn, p, Best(t, insn, p))
  {
    var n := SearchFindsBest(t, 0, insn, p, None, -1);
    hide Level, Search;
    BestOfMeans(t, n, insn, p, Best(t, insn, p));
  }

  lemma BestOfMeans(t: Tables, n: nat, insn: Insn, p: Prefix, r: Option<nat>)
    requires n <= |t.opcodes| && BestOf(t, n, insn, p, r)
    requires n == |t.opcodes| || (r == Some(n - 1) && Level(t, n - 1, insn, p) >= 32)
    ensures IsBest(t, insn, p, r)
  {
    hide Level, Matches, Weight;
    forall k | 0 <= k < |t.opcodes|
      ensures Matches(t, k, insn, p) ==> Level(t, k, insn, p) == Weight(t.opcodes[k])
      ensures !Matches(t, k, insn, p) ==> Level(t, k, insn, p) < 0
    {
      LevelMeans(t, k, insn, p);
    }
  }

  // ---------- prefix classes ----------

  datatype Class = DipClass | Minus1 | Minus2 | Minus4 | Rest

  function ClassOf(p: Prefix): Class
    requires p.Prefixed?
  {
    if p.mask == BDAP_QUICK then
      if p.offset == -4 then Minus4 else if p.offset == -2 then Minus2 else if p.offset == -1 then Minus1 else Rest
    else if p.mask == DIP then DipClass
    else Rest
  }

  predicate SameClass(p: Prefix, q: Prefix) {
    p == q || (p.Prefixed? && q.Prefixed? && ClassOf(p) == ClassOf(q)
               && -128 <= p.offset < 128 && -128 <= q.offset < 128)
  }

  /** A push test comes out the same for all prefixes of a class. */
  lemma PushByClass(t: Tables, next: char, insn: Insn, p: Prefix, q: Prefix)
    requires GoodSizes(t) && SameClass(p, q) && p.Prefixed? && p.mask == BDAP_QUICK
    ensures PushMatches(t, next, insn, p.offset) ==> q.mask == BDAP_QUICK && PushMatches(t, next, insn, q.offset)
  {
    var size := SpecRegSize(t.specRegs, High(insn), t.family, 0);
    if size.Some? { assert GoodSize(size.value); }
  }

  /** The constraints see a prefix only through its class. */
  lemma {:induction false} ConstraintByClass(t: Tables, args: string, i: nat, insn: Insn, p: Prefix, q: Prefix, retval: int, prefixOk: bool)
    requires GoodSizes(t) && SameClass(p, q) && i <= |args|
    ensures Constraint(t, args, i, insn, p, retval, prefixOk) == Constraint(t, args, i, insn, q, retval, prefixOk)
    decreases |args| - i
  {
    hide PushMatches, SpecRegSize;
    if i < |args| {
      ConstraintByClass(t, args, i + 1, insn, p, q, retval, prefixOk);
      ConstraintByClass(t, args, i + 1, insn, p, q, retval, true);
      ConstraintByClass(t, args, i + 1, insn, p, q, 5, prefixOk);
      ConstraintByClass(t, args, i + 1, insn, p, q, retval + 3, prefixOk);
      if p.Prefixed? && i + 1 < |args| {
        if p.mask == BDAP_QUICK { PushByClass(t, args[i + 1], insn, p, q); }
        if q.mask == BDAP_QUICK { PushByClass(t, args[i + 1], insn, q, p); }
      }
    }
  }

  lemma {:induction false} SearchByClass(t: Tables, k: nat, insn: Insn, p: Prefix, q: Prefix, best: Option<nat>, level: int)
    requires GoodSizes(t) && SameClass(p, q) && k <= |t.opcodes|
    ensures Search(t, k, insn, p, best, level) == Search(t, k, insn, q, best, level)
    decreases |t.opcodes| - k
  {
    hide Constraint;
    if k < |t.opcodes| {
      ConstraintByClass(t, t.opcodes[k].args, 0, insn, p, q, 0, false);
      var l := Level(t, k, insn, p);
      SearchByClass(t, k + 1, insn, p, q, Some(k), l);
      SearchByClass(t, k + 1, insn, p, q, best, level);
    }
  }

  /** The constraints tell no two prefixes of a class apart. */
  ghost predicate ClassSuffices(t: Tables) {
    forall args: string, i: nat, insn, p, q, retval, prefixOk :: i <= |args| && SameClass(p, q) ==>
      Constraint(t, args, i, insn, p, retval, prefixOk) == Constraint(t, args, i, insn, q, retval, prefixOk)
  }

  /** Two prefixes of the class Rest of which only the first pushes a register of a bad size. */
  lemma BadSizeTells(t: Tables, insn: Insn, size: nat) returns (p: Prefix, q: Prefix)
    requires SpecRegSize(t.specRegs, High(insn), t.family, 0) == Some(size) && !GoodSize(size)
    ensures SameClass(p, q) && Constraint(t, "BP", 0, insn, p, 0, false) != Constraint(t, "BP", 0, insn, q, 0, false)
  {
    p := Prefixed(BDAP_QUICK, if size <= 128 then 0 - size else 0x1_0000_0000 - size);
    q := Prefixed(BDAP_QUICK, if size == 0 then 1 else 0);
    assert PushSize(size, p.offset) && !PushSize(size, q.offset);
    hide PushSize, SpecRegSize, High;
    assert "BP"[1] == 'P' && "BP"[0] == 'B';
    assert Constraint(t, "BP", 2, insn, p, 3, true) == 3;
    assert Constraint(t, "BP", 1, insn, p, 0, true) == 3;
    assert Constraint(t, "BP", 0, insn, q, 0, false) == -1;
  }

  /** One memo table for each class is right exactly if no register has a size that push prefixes of
      the class Rest could match. */
  lemma ClassSufficesExact(t: Tables)
    ensures ClassSuffices(t) <==> GoodSizes(t)
  {
    if GoodSizes(t) {
      forall args: string, i: nat, insn, p, q, retval, prefixOk | i <= |args| && SameClass(p, q)
        ensures Constraint(t, args, i, insn, p, retval, prefixOk) == Constraint(t, args, i, insn, q, retval, prefixOk)
      {
        ConstraintByClass(t, args, i, insn, p, q, retval, prefixOk);
      }
    } else {
      var insn :| var size := SpecRegSize(t.specRegs, High(insn), t.family, 0); size.Some? && !GoodSize(size.value);
      var p, q := BadSizeTells(t, insn, SpecRegSize(t.specRegs, High(insn), t.family, 0).value);
    }
  }

  // ---------- what a lookup returns ----------

  /** The answer to a lookup.  A prefix must itself be decoded by some entry, the best one, and the
      instruction is then matched under that prefix. */
  ghost predicate IsAnswer(t: Tables, insn: Insn, prefix: Insn, r: Option<nat>) {
    if prefix == NO_PREFIX then IsBest(t, insn, NoPrefix, r)
    else if r.None? && IsBest(t, prefix, NoPrefix, None) then true
    else
      exists m: nat :: m < |t.opcodes| && IsBest(t, prefix, NoPrefix, Some(m)) &&
        IsBest(t, insn, Prefixed(t.opcodes[m].mask, Offset(prefix)), r)
  }

  lemma LookupAnswers(t: Tables, insn: Insn, prefix: Insn)
    ensures IsAnswer(t, insn, prefix, Lookup(t, insn, prefix))
  {
    hide Best, IsBest;
    if prefix == NO_PREFIX {
      BestIsBest(t, insn, NoPrefix);
    } else {
      var popcode := Best(t, prefix, NoPrefix);
      BestInRange(t, prefix, NoPrefix);
      BestIsBest(t, prefix, NoPrefix);
      if popcode.Some? { BestIsBest(t, insn, Prefixed(t.opcodes[popcode.value].mask, Offset(prefix))); }
    }
  }

  // ---------- the memo ----------

  /** What the constraints get to know about a prefix instruction. */
  function PrefixOf(t: Tables, prefix: Insn): Prefix {
    if prefix == NO_PREFIX then NoPrefix
    else
      var popcode := Best(t, prefix, NoPrefix);
      if popcode.Some? && popcode.value < |t.opcodes| then Prefixed(t.opcodes[popcode.value].mask, Offset(prefix))
      else NoPrefix
  }

  /** The prefix decodes to an opcode. */
  predicate Decodes(t: Tables, prefix: Insn) { Best(t, prefix, NoPrefix).Some? }

  lemma BestInRange(t: Tables, insn: Insn, p: Prefix)
    ensures var r := Best(t, insn, p); r.Some? ==> r.value < |t.opcodes|
  {
    SearchInRange(t, 0, insn, p, None, -1);
  }

  /** An index into the answer tables. */
  datatype Code = Code(bits: Insn)

  class Disassembler {
    const t: Tables
    /** Answers for plain instructions. */
    var opcTable: map<Code, nat>
    /** Answers for prefixed instructions, one table for each class of prefix. */
    var prefixed: map<Class, map<Code, nat>>

    /** Every remembered answer is what the plain search gives, for every prefix of the class. */
    ghost predicate Valid()
      reads this
    {
      && GoodTables(t)
      && (forall i :: i in opcTable ==> Best(t, i.bits, NoPrefix) == Some(opcTable[i]))
      && (forall c: Class :: c in prefixed)
      && forall c, i, p: Prefix ::
           c in prefixed && i in prefixed[c] && p.Prefixed? && -128 <= p.offset < 128 && ClassOf(p) == c ==>
             Best(t, i.bits, p) == Some(prefixed[c][i])
    }

    constructor (t: Tables)
      requires GoodTables(t)
      ensures Valid() && this.t == t
    {
      this.t := t;
      opcTable := map[];
      prefixed := map[DipClass := map[], Minus1 := map[], Minus2 := map[], Minus4 := map[], Rest := map[]];
      new;
      forall c: Class
        ensures c in prefixed && prefixed[c] == map[]
      {
        match c
        case DipClass =>
        case Minus1 =>
        case Minus2 =>
        case Minus4 =>
        case Rest =>
      }
    }

    /** get_opcode_entry: whatever has been looked up before, the answer is that of the plain lookup. */
    method GetOpcodeEntry(insn: Insn, prefix: Insn) returns (r: Option<nat>)
      requires Valid()
      modifies this
      ensures Valid() && r == Lookup(t, insn, prefix) && IsAnswer(t, insn, prefix, r)
      decreases if prefix == NO_PREFIX then 0 else 1, 3
    {
      hide Best, ClassOf, IsAnswer;
      LookupAnswers(t, insn, prefix);
      var cls := Rest;
      if prefix != NO_PREFIX {
        var popcode;
        BestInRange(t, prefix, NoPrefix);
        if Code(prefix) in opcTable {
          popcode := Some(opcTable[Code(prefix)]);
        } else {
          popcode := GetOpcodeEntry(prefix, NO_PREFIX);
        }
        if popcode.None? { return None; }
        cls := PrefixClass(t.opcodes[popcode.value].mask, Offset(prefix));
        assert PrefixOf(t, prefix) == Prefixed(t.opcodes[popcode.value].mask, Offset(prefix));
      }
      ghost var p := PrefixOf(t, prefix);
      assert Lookup(t, insn, prefix) == Best(t, insn, p);
      if prefix != NO_PREFIX && Code(insn) in prefixed[cls] {
        r := Some(prefixed[cls][Code(insn)]);
      } else if prefix == NO_PREFIX && Code(insn) in opcTable {
        r := Some(opcTable[Code(insn)]);
      } else {
        r := SearchTable(insn, prefix);
        if r.Some? {
          if prefix == NO_PREFIX {
            opcTable := opcTable[Code(insn) := r.value];
          } else {
            Remember(cls, insn, r.value, p);
          }
        }
      }
    }

    /** Fills in an entry of the table of a class. */
    method Remember(cls: Class, insn: Insn, answer: nat, ghost p: Prefix)
      requires Valid() && p.Prefixed? && -128 <= p.offset < 128 && ClassOf(p) == cls
      requires Best(t, insn, p) == Some(answer)
      modifies this`prefixed
      ensures Valid()
    {
      hide Best, ClassOf;
      ClassAgrees(t, insn, p);
      ghost var was := prefixed;
      var table: map<Code, nat> := prefixed[cls];
      table := table[Code(insn) := answer];
      prefixed := prefixed[cls := table];
      forall c, i, q: Prefix |
        c in prefixed && i in prefixed[c] && q.Prefixed? && -128 <= q.offset < 128 && ClassOf(q) == c
        ensures Best(t, i.bits, q) == Some(prefixed[c][i])
      {
        if !(c == cls && i == Code(insn)) {
          assert i in was[c] && prefixed[c][i] == was[c][i];
        }
      }
    }

    /** The choice of the table for a prefix. */
    static method PrefixClass(mask: Insn, offset: int) returns (c: Class)
      ensures c == ClassOf(Prefixed(mask, offset))
    {
      if mask == BDAP_QUICK {
        if offset == -4 {
          c := Minus4;
        } else if offset == -2 {
          c := Minus2;
        } else if offset == -1 {
          c := Minus1;
        } else {
          c := Rest;
        }
      } else if mask == DIP {
        c := DipClass;
      } else {
        c := Rest;
      }
    }

    /** How well entry k matches: the bit templates first, then the constraints. */
    method EntryLevel(k: nat, insn: Insn, prefix: Insn) returns (level: int)
      requires Valid() && k < |t.opcodes| && (prefix != NO_PREFIX ==> Decodes(t, prefix))
      modifies this
      ensures Valid() && level == Level(t, k, insn, PrefixOf(t, prefix))
      decreases if prefix == NO_PREFIX then 0 else 1, 1
    {
      hide Constraint, PrefixOf, NumberOfBits, Best, Decodes, BitMatch;
      var op := t.opcodes[k];
      level := -1;
      if Applicable(op.version, t.family) && BitMatch(op.mask, op.lose, insn) {
        level := CheckConstraint(op.args, insn, prefix);
        if level >= 0 {
          level := level + 2 * NumberOfBits(Either(op.mask, op.lose));
        } else {
          level := -1;
        }
      }
    }

    /** The loop over the opcode table. */
    method SearchTable(insn: Insn, prefix: Insn) returns (best: Option<nat>)
      requires Valid() && (prefix != NO_PREFIX ==> Decodes(t, prefix))
      modifies this
      ensures Valid() && best == Best(t, insn, PrefixOf(t, prefix))
      decreases if prefix == NO_PREFIX then 0 else 1, 2
    {
      hide Level, PrefixOf, Decodes;
      ghost var p := PrefixOf(t, prefix);
      best := None;
      var level, k := -1, 0;
      while k < |t.opcodes|
        invariant Valid() && 0 <= k <= |t.opcodes|
        invariant Search(t, 0, insn, p, None, -1) == Search(t, k, insn, p, best, level)
        invariant -1 <= level
        decreases |t.opcodes| - k
      {
        var l := EntryLevel(k, insn, prefix);
        if l > level {
          best := Some(k);
          level := l;
          if level >= 32 { return; }
        }
        k := k + 1;
      }
    }

    /** cris_constraint. */
    method CheckConstraint(args: string, insn: Insn, prefix: Insn) returns (retval: int)
      requires Valid() && (prefix != NO_PREFIX ==> Decodes(t, prefix))
      modifies this
      ensures Valid() && retval == Constraint(t, args, 0, insn, PrefixOf(t, prefix), 0, false)
      decreases if prefix == NO_PREFIX then 0 else 1, 0
    {
      hide Best, SpecRegSize, PushSize;
      ghost var p := PrefixOf(t, prefix);
      BestInRange(t, prefix, NoPrefix);
      assert prefix != NO_PREFIX <==> p.Prefixed?;
      retval := 0;
      var prefixOk, i := false, 0;
      while i < |args|
        invariant Valid() && 0 <= i <= |args|
        invariant Constraint(t, args, 0, insn, p, 0, false) == Constraint(t, args, i, insn, p, retval, prefixOk)
        decreases |args| - i
      {
        var c := args[i];
        if c == '!' {
          if prefix != NO_PREFIX || t.family != V0_V10 { return -1; }
        } else if c == 'U' {
          return -1;
        } else if c == 'M' {
          var tmp := High(insn);
          if tmp != 0 && tmp != 4 && tmp != 8 { return -1; }
        } else if c == 'm' {
          if insn & 0x30 == 0x30 { return -1; }
        } else if c == 'S' {
          if prefix != NO_PREFIX && insn & 0x400 == 0 {
            prefixOk := true;
          } else {
            return -1;
          }
        } else if c == 's' || c == 'y' || c == 'Y' {
          if prefix != NO_PREFIX {
            if insn & 0x400 != 0 {
              var mask := PrefixMask(prefix);
              if mask == DIP { return -1; }
            }
            prefixOk := true;
          }
        } else if c == 'B' {
          prefixOk := true;
          var ok := false;
          if prefix != NO_PREFIX {
            var mask := PrefixMask(prefix);
            if mask == BDAP_QUICK {
              var pushsize := Offset(prefix);
              if i + 1 < |args| && args[i + 1] == 'P' {
                var size := SpecRegSize(t.specRegs, High(insn), t.family, 0);
                if size.Some? && PushSize(size.value, pushsize) { ok := true; }
              } else if i + 1 < |args| && args[i + 1] == 'R' {
                if insn & 0x30 == 0x20 && pushsize == -4 { ok := true; }
              }
            }
          }
          if !ok { return -1; }
        } else if c == 'D' {
          if High(insn) == Low(insn) { retval := 5; } else { return -1; }
        } else if c == 'P' {
          var size := SpecRegSize(t.specRegs, High(insn), t.family, 0);
          if size.Some? { retval := retval + 3; } else { return -1; }
        }
        i := i + 1;
      }
      if prefix != NO_PREFIX && !prefixOk { return -1; }
    }

    /** The template of the opcode a prefix decodes to, looked up through the memo. */
    method PrefixMask(prefix: Insn) returns (mask: Insn)
      requires Valid() && prefix != NO_PREFIX && Decodes(t, prefix)
      modifies this
      ensures Valid() && PrefixOf(t, prefix) == Prefixed(mask, Offset(prefix))
      decreases 0, 4
    {
      var popcode := GetOpcodeEntry(prefix, NO_PREFIX);
      BestInRange(t, prefix, NoPrefix);
      mask := t.opcodes[popcode.value].mask;
    }
  }

  /** The answer for one prefix of a class is the answer for all of them. */
  lemma ClassAgrees(t: Tables, insn: Insn, p: Prefix)
    requires GoodSizes(t) && p.Prefixed? && -128 <= p.offset < 128
    ensures forall q: Prefix :: q.Prefixed? && -128 <= q.offset < 128 && ClassOf(q) == ClassOf(p) ==>
              Best(t, insn, q) == Best(t, insn, p)
  {
    forall q: Prefix | q.Prefixed? && -128 <= q.offset < 128 && ClassOf(q) == ClassOf(p)
      ensures Best(t, insn, q) == Best(t, insn, p)
    {
      SearchByClass(t, 0, insn, p, q, None, -1);
    }
  }
}
