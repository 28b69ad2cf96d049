// The grammar that checks lcc's intermediate trees: its numbered rules, the
// rules tried in each arm of _label, and the decode tables
// (lcc/src/dagcheck.md, lcc/src/dagcheck.c).

module Grammar {

  const STMT := 1
  const P := 2
  const V := 3
  const BOGUS := 4
  const I := 5
  const U := 6
  const F := 7
  const B := 8

  predicate IsValue(nt: nat) { nt == P || nt == I || nt == U || nt == F || nt == B }

  predicate IsGoal(nt: nat) { 1 <= nt <= 8 }

  datatype Rule =
    | NoRule
    | Chain(lhs: nat, rhs: nat, price: nat)
    | Base(lhs: nat, op: nat, kids: seq<nat>)

  /** One attempt inside an arm of _label: if the kids are cheap enough, lhs gets index. */
  datatype Try = Try(lhs: nat, index: nat, kids: seq<nat>)

  /** Rules 1 to 119 of the grammar. */
  function RuleOf(n: nat): Rule {
    if n <= 10 then StatementRules(n)
    else if n <= 22 then ChainRules(n)
    else if n <= 41 then AddressRules(n)
    else if n <= 67 then UnaryRules(n)
    else if n <= 85 then SumRules(n)
    else if n <= 99 then BitRules(n)
    else JumpRules(n)
  }

  /** The arm of _label for one terminal; empty where _label calls fatal. */
  function Arm(op: nat): seq<Try> {
    if op <= 41 then ConstArm(op)
    else if op <= 57 then StoreArm(op)
    else if op <= 73 then LoadArm(op)
    else if op <= 197 then ConvertArm(op)
    else if op <= 217 then CallArm(op)
    else if op <= 295 then ReturnArm(op)
    else if op <= 327 then SumArm(op)
    else if op <= 406 then ShiftArm(op)
    else if op <= 470 then BitArm(op)
    else if op <= 518 then EqualArm(op)
    else LessArm(op)
  }

  /** How many subtrees the arm labels before it tries its rules. */
  function Arity(op: nat): nat {
    var arm := Arm(op);
    if arm == [] then 0 else |arm[0].kids|
  }

  function StatementRules(n: nat): Rule {
    if n == 1 then Base(STMT, 73, [P]) // INDIRB
    else if n == 2 then Base(STMT, 65, [P]) // INDIRF
    else if n == 3 then Base(STMT, 69, [P]) // INDIRI
    else if n == 4 then Base(STMT, 70, [P]) // INDIRU
    else if n == 5 then Base(STMT, 71, [P]) // INDIRP
    else if n == 6 then Base(STMT, 209, [P]) // CALLF
    else if n == 7 then Base(STMT, 213, [P]) // CALLI
    else if n == 8 then Base(STMT, 214, [P]) // CALLU
    else if n == 9 then Base(STMT, 215, [P]) // CALLP
    else if n == 10 then Chain(STMT, V, 0)
    else NoRule
  }

  function ChainRules(n: nat): Rule {
    if n == 11 then Chain(BOGUS, I, 1)
    else if n == 12 then Chain(BOGUS, U, 1)
    else if n == 13 then Chain(BOGUS, P, 1)
    else if n == 14 then Chain(BOGUS, F, 1)
    else if n == 15 then Chain(BOGUS, B, 1)
    else if n == 16 then Chain(BOGUS, V, 1)
    else if n == 17 then Chain(I, BOGUS, 1)
    else if n == 18 then Chain(U, BOGUS, 1)
    else if n == 19 then Chain(P, BOGUS, 1)
    else if n == 20 then Chain(F, BOGUS, 1)
    else if n == 21 then Chain(B, BOGUS, 1)
    else if n == 22 then Chain(V, BOGUS, 1)
    else NoRule
  }

  function AddressRules(n: nat): Rule {
    if n == 23 then Base(F, 17, []) // CNSTF
    else if n == 24 then Base(I, 21, []) // CNSTI
    else if n == 25 then Base(P, 23, []) // CNSTP
    else if n == 26 then Base(U, 22, []) // CNSTU
    else if n == 27 then Base(V, 41, [B]) // ARGB
    else if n == 28 then Base(V, 33, [F]) // ARGF
    else if n == 29 then Base(V, 37, [I]) // ARGI
    else if n == 30 then Base(V, 38, [U]) // ARGU
    else if n == 31 then Base(V, 39, [P]) // ARGP
    else if n == 32 then Base(V, 57, [P, B]) // ASGNB
    else if n == 33 then Base(V, 49, [P, F]) // ASGNF
    else if n == 34 then Base(V, 53, [P, I]) // ASGNI
    else if n == 35 then Base(V, 54, [P, U]) // ASGNU
    else if n == 36 then Base(V, 55, [P, P]) // ASGNP
    else if n == 37 then Base(B, 73, [P]) // INDIRB
    else if n == 38 then Base(F, 65, [P]) // INDIRF
    else if n == 39 then Base(I, 69, [P]) // INDIRI
    else if n == 40 then Base(U, 70, [P]) // INDIRU
    else if n == 41 then Base(P, 71, [P]) // INDIRP
    else NoRule
  }

  function UnaryRules(n: nat): Rule {
    if n == 42 then Base(I, 133, [I]) // CVII
    else if n == 43 then Base(I, 181, [U]) // CVUI
    else if n == 44 then Base(I, 117, [F]) // CVFI
    else if n == 45 then Base(U, 134, [I]) // CVIU
    else if n == 46 then Base(U, 182, [U]) // CVUU
    else if n == 47 then Base(U, 150, [P]) // CVPU
    else if n == 48 then Base(F, 129, [I]) // CVIF
    else if n == 49 then Base(F, 113, [F]) // CVFF
    else if n == 50 then Base(P, 183, [U]) // CVUP
    else if n == 51 then Base(P, 151, [P]) // CVPP
    else if n == 52 then Base(F, 193, [F]) // NEGF
    else if n == 53 then Base(I, 197, [I]) // NEGI
    else if n == 54 then Base(V, 217, [P, P]) // CALLB
    else if n == 55 then Base(F, 209, [P]) // CALLF
    else if n == 56 then Base(I, 213, [P]) // CALLI
    else if n == 57 then Base(U, 214, [P]) // CALLU
    else if n == 58 then Base(P, 215, [P]) // CALLP
    else if n == 59 then Base(V, 216, [P]) // CALLV
    else if n == 60 then Base(V, 241, [F]) // RETF
    else if n == 61 then Base(V, 245, [I]) // RETI
    else if n == 62 then Base(V, 246, [U]) // RETU
    else if n == 63 then Base(V, 247, [P]) // RETP
    else if n == 64 then Base(V, 248, []) // RETV
    else if n == 65 then Base(P, 263, []) // ADDRGP
    else if n == 66 then Base(P, 279, []) // ADDRFP
    else if n == 67 then Base(P, 295, []) // ADDRLP
    else NoRule
  }

  function SumRules(n: nat): Rule {
    if n == 68 then Base(F, 305, [F, F]) // ADDF
    else if n == 69 then Base(I, 309, [I, I]) // ADDI
    else if n == 70 then Base(P, 311, [P, I]) // ADDP
    else if n == 71 then Base(P, 311, [I, P]) // ADDP
    else if n == 72 then Base(P, 311, [U, P]) // ADDP
    else if n == 73 then Base(P, 311, [P, U]) // ADDP
    else if n == 74 then Base(U, 310, [U, U]) // ADDU
    else if n == 75 then Base(F, 321, [F, F]) // SUBF
    else if n == 76 then Base(I, 325, [I, I]) // SUBI
    else if n == 77 then Base(P, 327, [P, I]) // SUBP
    else if n == 78 then Base(P, 327, [P, U]) // SUBP
    else if n == 79 then Base(U, 326, [U, U]) // SUBU
    else if n == 80 then Base(I, 341, [I, I]) // LSHI
    else if n == 81 then Base(U, 342, [U, I]) // LSHU
    else if n == 82 then Base(I, 357, [I, I]) // MODI
    else if n == 83 then Base(U, 358, [U, U]) // MODU
    else if n == 84 then Base(I, 373, [I, I]) // RSHI
    else if n == 85 then Base(U, 374, [U, I]) // RSHU
    else NoRule
  }

  function BitRules(n: nat): Rule {
    if n == 86 then Base(U, 390, [U, U]) // BANDU
    else if n == 87 then Base(I, 389, [I, I]) // BANDI
    else if n == 88 then Base(U, 406, [U]) // BCOMU
    else if n == 89 then Base(I, 405, [I]) // BCOMI
    else if n == 90 then Base(I, 421, [I, I]) // BORI
    else if n == 91 then Base(U, 422, [U, U]) // BORU
    else if n == 92 then Base(U, 438, [U, U]) // BXORU
    else if n == 93 then Base(I, 437, [I, I]) // BXORI
    else if n == 94 then Base(F, 449, [F, F]) // DIVF
    else if n == 95 then Base(I, 453, [I, I]) // DIVI
    else if n == 96 then Base(U, 454, [U, U]) // DIVU
    else if n == 97 then Base(F, 465, [F, F]) // MULF
    else if n == 98 then Base(I, 469, [I, I]) // MULI
    else if n == 99 then Base(U, 470, [U, U]) // MULU
    else NoRule
  }

  function JumpRules(n: nat): Rule {
    if n == 100 then Base(V, 481, [F, F]) // EQF
    else if n == 101 then Base(V, 485, [I, I]) // EQI
    else if n == 102 then Base(V, 486, [U, U]) // EQU
    else if n == 103 then Base(V, 497, [F, F]) // GEF
    else if n == 104 then Base(V, 501, [I, I]) // GEI
    else if n == 105 then Base(V, 502, [U, U]) // GEU
    else if n == 106 then Base(V, 513, [F, F]) // GTF
    else if n == 107 then Base(V, 517, [I, I]) // GTI
    else if n == 108 then Base(V, 518, [U, U]) // GTU
    else if n == 109 then Base(V, 529, [F, F]) // LEF
    else if n == 110 then Base(V, 533, [I, I]) // LEI
    else if n == 111 then Base(V, 534, [U, U]) // LEU
    else if n == 112 then Base(V, 545, [F, F]) // LTF
    else if n == 113 then Base(V, 549, [I, I]) // LTI
    else if n == 114 then Base(V, 550, [U, U]) // LTU
    else if n == 115 then Base(V, 561, [F, F]) // NEF
    else if n == 116 then Base(V, 565, [I, I]) // NEI
    else if n == 117 then Base(V, 566, [U, U]) // NEU
    else if n == 118 then Base(V, 584, [P]) // JUMPV
    else if n == 119 then Base(V, 600, []) // LABELV
    else NoRule
  }

  function ConstArm(op: nat): seq<Try> {
    if op == 17 then [Try(F, 2, [])] // CNSTF
    else if op == 21 then [Try(I, 2, [])] // CNSTI
    else if op == 22 then [Try(U, 2, [])] // CNSTU
    else if op == 23 then [Try(P, 2, [])] // CNSTP
    else if op == 33 then [Try(V, 3, [F])] // ARGF
    else if op == 37 then [Try(V, 4, [I])] // ARGI
    else if op == 38 then [Try(V, 5, [U])] // ARGU
    else if op == 39 then [Try(V, 6, [P])] // ARGP
    else if op == 41 then [Try(V, 2, [B])] // ARGB
    else []
  }

  function StoreArm(op: nat): seq<Try> {
    if op == 49 then [Try(V, 8, [P, F])] // ASGNF
    else if op == 53 then [Try(V, 9, [P, I])] // ASGNI
    else if op == 54 then [Try(V, 10, [P, U])] // ASGNU
    else if op == 55 then [Try(V, 11, [P, P])] // ASGNP
    else if op == 57 then [Try(V, 7, [P, B])] // ASGNB
    else []
  }

  function LoadArm(op: nat): seq<Try> {
    if op == 65 then [Try(STMT, 2, [P]), Try(F, 3, [P])] // INDIRF
    else if op == 69 then [Try(STMT, 3, [P]), Try(I, 3, [P])] // INDIRI
    else if op == 70 then [Try(STMT, 4, [P]), Try(U, 3, [P])] // INDIRU
    else if op == 71 then [Try(STMT, 5, [P]), Try(P, 3, [P])] // INDIRP
    else if op == 73 then [Try(STMT, 1, [P]), Try(B, 2, [P])] // INDIRB
    else []
  }

  function ConvertArm(op: nat): seq<Try> {
    if op == 113 then [Try(F, 5, [F])] // CVFF
    else if op == 117 then [Try(I, 6, [F])] // CVFI
    else if op == 129 then [Try(F, 4, [I])] // CVIF
    else if op == 133 then [Try(I, 4, [I])] // CVII
    else if op == 134 then [Try(U, 4, [I])] // CVIU
    else if op == 150 then [Try(U, 6, [P])] // CVPU
    else if op == 151 then [Try(P, 5, [P])] // CVPP
    else if op == 181 then [Try(I, 5, [U])] // CVUI
    else if op == 182 then [Try(U, 5, [U])] // CVUU
    else if op == 183 then [Try(P, 4, [U])] // CVUP
    else if op == 193 then [Try(F, 6, [F])] // NEGF
    else if op == 197 then [Try(I, 7, [I])] // NEGI
    else []
  }

  function CallArm(op: nat): seq<Try> {
    if op == 209 then [Try(STMT, 6, [P]), Try(F, 7, [P])] // CALLF
    else if op == 213 then [Try(STMT, 7, [P]), Try(I, 8, [P])] // CALLI
    else if op == 214 then [Try(STMT, 8, [P]), Try(U, 7, [P])] // CALLU
    else if op == 215 then [Try(STMT, 9, [P]), Try(P, 6, [P])] // CALLP
    else if op == 216 then [Try(V, 13, [P])] // CALLV
    else if op == 217 then [Try(V, 12, [P, P])] // CALLB
    else []
  }

  function ReturnArm(op: nat): seq<Try> {
    if op == 241 then [Try(V, 14, [F])] // RETF
    else if op == 245 then [Try(V, 15, [I])] // RETI
    else if op == 246 then [Try(V, 16, [U])] // RETU
    else if op == 247 then [Try(V, 17, [P])] // RETP
    else if op == 248 then [Try(V, 18, [])] // RETV
    else if op == 263 then [Try(P, 7, [])] // ADDRGP
    else if op == 279 then [Try(P, 8, [])] // ADDRFP
    else if op == 295 then [Try(P, 9, [])] // ADDRLP
    else []
  }

  function SumArm(op: nat): seq<Try> {
    if op == 305 then [Try(F, 8, [F, F])] // ADDF
    else if op == 309 then [Try(I, 9, [I, I])] // ADDI
    else if op == 310 then [Try(U, 8, [U, U])] // ADDU
    else if op == 311 then [Try(P, 10, [P, I]), Try(P, 11, [I, P]), Try(P, 12, [U, P]), Try(P, 13, [P, U])] // ADDP
    else if op == 321 then [Try(F, 9, [F, F])] // SUBF
    else if op == 325 then [Try(I, 10, [I, I])] // SUBI
    else if op == 326 then [Try(U, 9, [U, U])] // SUBU
    else if op == 327 then [Try(P, 14, [P, I]), Try(P, 15, [P, U])] // SUBP
    else []
  }

  function ShiftArm(op: nat): seq<Try> {
    if op == 341 then [Try(I, 11, [I, I])] // LSHI
    else if op == 342 then [Try(U, 10, [U, I])] // LSHU
    else if op == 357 then [Try(I, 12, [I, I])] // MODI
    else if op == 358 then [Try(U, 11, [U, U])] // MODU
    else if op == 373 then [Try(I, 13, [I, I])] // RSHI
    else if op == 374 then [Try(U, 12, [U, I])] // RSHU
    else if op == 389 then [Try(I, 14, [I, I])] // BANDI
    else if op == 390 then [Try(U, 13, [U, U])] // BANDU
    else if op == 405 then [Try(I, 15, [I])] // BCOMI
    else if op == 406 then [Try(U, 14, [U])] // BCOMU
    else []
  }

  function BitArm(op: nat): seq<Try> {
    if op == 421 then [Try(I, 16, [I, I])] // BORI
    else if op == 422 then [Try(U, 15, [U, U])] // BORU
    else if op == 437 then [Try(I, 17, [I, I])] // BXORI
    else if op == 438 then [Try(U, 16, [U, U])] // BXORU
    else if op == 449 then [Try(F, 10, [F, F])] // DIVF
    else if op == 453 then [Try(I, 18, [I, I])] // DIVI
    else if op == 454 then [Try(U, 17, [U, U])] // DIVU
    else if op == 465 then [Try(F, 11, [F, F])] // MULF
    else if op == 469 then [Try(I, 19, [I, I])] // MULI
    else if op == 470 then [Try(U, 18, [U, U])] // MULU
    else []
  }

  function EqualArm(op: nat): seq<Try> {
    if op == 481 then [Try(V, 19, [F, F])] // EQF
    else if op == 485 then [Try(V, 20, [I, I])] // EQI
    else if op == 486 then [Try(V, 21, [U, U])] // EQU
    else if op == 497 then [Try(V, 22, [F, F])] // GEF
    else if op == 501 then [Try(V, 23, [I, I])] // GEI
    else if op == 502 then [Try(V, 24, [U, U])] // GEU
    else if op == 513 then [Try(V, 25, [F, F])] // GTF
    else if op == 517 then [Try(V, 26, [I, I])] // GTI
    else if op == 518 then [Try(V, 27, [U, U])] // GTU
    else []
  }

  function LessArm(op: nat): seq<Try> {
    if op == 529 then [Try(V, 28, [F, F])] // LEF
    else if op == 533 then [Try(V, 29, [I, I])] // LEI
    else if op == 534 then [Try(V, 30, [U, U])] // LEU
    else if op == 545 then [Try(V, 31, [F, F])] // LTF
    else if op == 549 then [Try(V, 32, [I, I])] // LTI
    else if op == 550 then [Try(V, 33, [U, U])] // LTU
    else if op == 561 then [Try(V, 34, [F, F])] // NEF
    else if op == 565 then [Try(V, 35, [I, I])] // NEI
    else if op == 566 then [Try(V, 36, [U, U])] // NEU
    else if op == 584 then [Try(V, 37, [P])] // JUMPV
    else if op == 600 then [Try(V, 38, [])] // LABELV
    else []
  }

  function DecodeStmt(i: nat): nat {
    if 1 <= i <= 10 then i
    else 0
  }

  function DecodeP(i: nat): nat {
    if i == 1 then 19
    else if i == 2 then 25
    else if i == 3 then 41
    else if 4 <= i <= 5 then 46 + i
    else if i == 6 then 58
    else if 7 <= i <= 9 then 58 + i
    else if 10 <= i <= 13 then 60 + i
    else if 14 <= i <= 15 then 63 + i
    else 0
  }

  function DecodeV(i: nat): nat {
    if i == 1 then 22
    else if 2 <= i <= 11 then 25 + i
    else if i == 12 then 54
    else if 13 <= i <= 18 then 46 + i
    else if 19 <= i <= 38 then 81 + i
    else 0
  }

  function DecodeBogus(i: nat): nat {
    if 1 <= i <= 6 then 10 + i
    else 0
  }

  function DecodeI(i: nat): nat {
    if i == 1 then 17
    else if i == 2 then 24
    else if i == 3 then 39
    else if 4 <= i <= 6 then 38 + i
    else if i == 7 then 53
    else if i == 8 then 56
    else if i == 9 then 69
    else if i == 10 then 76
    else if i == 11 then 80
    else if i == 12 then 82
    else if i == 13 then 84
    else if i == 14 then 87
    else if 15 <= i <= 16 then 74 + i
    else if i == 17 then 93
    else if i == 18 then 95
    else if i == 19 then 98
    else 0
  }

  function DecodeU(i: nat): nat {
    if i == 1 then 18
    else if i == 2 then 26
    else if i == 3 then 40
    else if 4 <= i <= 6 then 41 + i
    else if i == 7 then 57
    else if i == 8 then 74
    else if i == 9 then 79
    else if i == 10 then 81
    else if i == 11 then 83
    else if 12 <= i <= 13 then 73 + i
    else if i == 14 then 88
    else if 15 <= i <= 16 then 76 + i
    else if i == 17 then 96
    else if i == 18 then 99
    else 0
  }

  function DecodeF(i: nat): nat {
    if i == 1 then 20
    else if i == 2 then 23
    else if i == 3 then 38
    else if 4 <= i <= 5 then 44 + i
    else if i == 6 then 52
    else if i == 7 then 55
    else if i == 8 then 68
    else if i == 9 then 75
    else if i == 10 then 94
    else if i == 11 then 97
    else 0
  }

  function DecodeB(i: nat): nat {
    if i == 1 then 21
    else if i == 2 then 37
    else 0
  }

  /** The rule number kept as index i in the field for nt; 0 where there is none. */
  function Decode(nt: nat, i: nat): nat {
    if nt == STMT then DecodeStmt(i)
    else if nt == P then DecodeP(i)
    else if nt == V then DecodeV(i)
    else if nt == BOGUS then DecodeBogus(i)
    else if nt == I then DecodeI(i)
    else if nt == U then DecodeU(i)
    else if nt == F then DecodeF(i)
    else if nt == B then DecodeB(i)
    else 0
  }

  /** The field of a state that holds an index for nt has this many bits. */
  function FieldWidth(nt: nat): nat {
    if nt == STMT || nt == P || nt == F then 4
    else if nt == V then 6
    else if nt == BOGUS then 3
    else if nt == I || nt == U then 5
    else 2
  }

  function FieldSpan(bits: nat): nat {
    if bits == 2 then 4
    else if bits == 3 then 8
    else if bits == 4 then 16
    else if bits == 5 then 32
    else 64
  }

  /** A try whose index fits its field and decodes to the rule that is tried. */
  predicate GoodTry(e: Try, op: nat) {
    && IsGoal(e.lhs) && e.lhs != BOGUS
    && |e.kids| <= 2
    && (forall k :: 0 <= k < |e.kids| ==> IsGoal(e.kids[k]))
    && e.index < FieldSpan(FieldWidth(e.lhs))
    && RuleOf(Decode(e.lhs, e.index)) == Base(e.lhs, op, e.kids)
  }

  lemma ConstTries(op: nat, i: nat)
    requires i < |ConstArm(op)|
    ensures GoodTry(ConstArm(op)[i], op)
  {
  }

  lemma StoreTries(op: nat, i: nat)
    requires i < |StoreArm(op)|
    ensures GoodTry(StoreArm(op)[i], op)
  {
  }

  lemma LoadTries(op: nat, i: nat)
    requires i < |LoadArm(op)|
    ensures GoodTry(LoadArm(op)[i], op)
  {
  }

  lemma ConvertTries(op: nat, i: nat)
    requires i < |ConvertArm(op)|
    ensures GoodTry(ConvertArm(op)[i], op)
  {
  }

  lemma CallTries(op: nat, i: nat)
    requires i < |CallArm(op)|
    ensures GoodTry(CallArm(op)[i], op)
  {
  }

  lemma ReturnTries(op: nat, i: nat)
    requires i < |ReturnArm(op)|
    ensures GoodTry(ReturnArm(op)[i], op)
  {
  }

  lemma SumTries(op: nat, i: nat)
    requires i < |SumArm(op)|
    ensures GoodTry(SumArm(op)[i], op)
  {
  }

  lemma ShiftTries(op: nat, i: nat)
    requires i < |ShiftArm(op)|
    ensures GoodTry(ShiftArm(op)[i], op)
  {
  }

  lemma BitTries(op: nat, i: nat)
    requires i < |BitArm(op)|
    ensures GoodTry(BitArm(op)[i], op)
  {
  }

  lemma EqualTries(op: nat, i: nat)
    requires i < |EqualArm(op)|
    ensures GoodTry(EqualArm(op)[i], op)
  {
  }

  lemma LessTries(op: nat, i: nat)
    requires i < |LessArm(op)|
    ensures GoodTry(LessArm(op)[i], op)
  {
  }

  /** Every attempt in _label names a rule of the grammar, and its index fits and decodes to it. */
  lemma ArmFollowsGrammar(op: nat, i: nat)
    requires i < |Arm(op)|
    ensures GoodTry(Arm(op)[i], op)
  {
    hide ConstArm, StoreArm, LoadArm, ConvertArm, CallArm, ReturnArm, SumArm, ShiftArm, BitArm, EqualArm, LessArm,
         GoodTry;
    if op <= 41 {
      ConstTries(op, i);
    } else if op <= 57 {
      StoreTries(op, i);
    } else if op <= 73 {
      LoadTries(op, i);
    } else if op <= 197 {
      ConvertTries(op, i);
    } else if op <= 217 {
      CallTries(op, i);
    } else if op <= 295 {
      ReturnTries(op, i);
    } else if op <= 327 {
      SumTries(op, i);
    } else if op <= 406 {
      ShiftTries(op, i);
    } else if op <= 470 {
      BitTries(op, i);
    } else if op <= 518 {
      EqualTries(op, i);
    } else {
      LessTries(op, i);
    }
  }

  /** The attempts of an arm all have as many kids as the arm labels. */
  lemma ArmArity(op: nat, i: nat)
    requires i < |Arm(op)|
    ensures |Arm(op)[i].kids| == Arity(op)
  {
  }

  /** The arm of the rule's terminal tries the rule. */
  predicate Tried(n: nat) {
    var r := RuleOf(n);
    r.Base? ==> exists e :: e in Arm(r.op) && e.lhs == r.lhs && e.kids == r.kids
  }

  lemma StatementRulesTried(n: nat)
    requires n <= 10
    ensures Tried(n)
  {
    var r := RuleOf(n);
    if r.Base? {
      assert Arm(r.op)[0] in Arm(r.op);
    }
  }

  lemma AddressRulesTried(n: nat)
    requires 22 < n <= 41
    ensures Tried(n)
  {
    var r := RuleOf(n);
    if n <= 36 {
      assert Arm(r.op)[0] in Arm(r.op);
    } else {
      assert Arm(r.op)[1] in Arm(r.op);
    }
  }

  lemma UnaryRulesTried(n: nat)
    requires 41 < n <= 67
    ensures Tried(n)
  {
    var r := RuleOf(n);
    if 55 <= n <= 58 {
      assert Arm(r.op)[1] in Arm(r.op);
    } else {
      assert Arm(r.op)[0] in Arm(r.op);
    }
  }

  lemma SumRulesTried(n: nat)
    requires 67 < n <= 85
    ensures Tried(n)
  {
    var r := RuleOf(n);
    if 70 <= n <= 73 {
      assert Arm(r.op)[n - 70] in Arm(r.op);
    } else if n == 78 {
      assert Arm(r.op)[1] in Arm(r.op);
    } else {
      assert Arm(r.op)[0] in Arm(r.op);
    }
  }

  lemma BitRulesTried(n: nat)
    requires 85 < n <= 99
    ensures Tried(n)
  {
    var r := RuleOf(n);
    assert Arm(r.op)[0] in Arm(r.op);
  }

  lemma JumpRulesTried(n: nat)
    requires 99 < n
    ensures Tried(n)
  {
    var r := RuleOf(n);
    if r.Base? {
      assert Arm(r.op)[0] in Arm(r.op);
    }
  }

  /** _label leaves out no rule of the grammar. */
  lemma GrammarFollowsArms(n: nat)
    ensures Tried(n)
  {
    hide StatementRules, AddressRules, UnaryRules, SumRules, BitRules, JumpRules, Arm;
    if n <= 10 {
      StatementRulesTried(n);
    } else if n <= 22 {
      assert !RuleOf(n).Base?;
    } else if n <= 41 {
      AddressRulesTried(n);
    } else if n <= 67 {
      UnaryRulesTried(n);
    } else if n <= 85 {
      SumRulesTried(n);
    } else if n <= 99 {
      BitRulesTried(n);
    } else {
      JumpRulesTried(n);
    }
  }

  /** The chain rules join bogus to every other type, at cost 1, and lead from V to stmt. */
  predicate GoodChain(r: Rule) {
    && r.Chain?
    && (|| r == Chain(STMT, V, 0)
        || ((IsValue(r.lhs) || r.lhs == V) && r == Chain(r.lhs, BOGUS, 1))
        || ((IsValue(r.rhs) || r.rhs == V) && r == Chain(BOGUS, r.rhs, 1)))
  }

  lemma ChainShape(n: nat)
    requires RuleOf(n).Chain?
    ensures GoodChain(RuleOf(n))
    ensures RuleOf(n).price == if 11 <= n <= 22 then 1 else 0
  {
  }

  lemma BaseNumber(n: nat)
    requires RuleOf(n).Base?
    ensures !(11 <= n <= 22)
  {
  }
}
