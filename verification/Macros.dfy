// Expansion of object-like macros in a row of tokens (expandrow and expand in
// lcc/cpp/macro.c), against the algorithm on sets of hidden names.

module Macros {
  import opened Hidesets
  import opened TokenRows

  /** The replacement of each macro. */
  type Definitions = map<Macro, seq<Token>>

  /** At most 30 macros; the tokens of a replacement, as #define leaves them, hide nothing. */
  ghost predicate DefinitionsOk(defs: Definitions) {
    && |defs.Keys| <= HSSIZ - 2
    && (forall m :: m in defs ==> m > 0 && forall k :: 0 <= k < |defs[m]| ==> defs[m][k].hideset == 0)
  }

  // ----- expansion on sets -----

  /** A token with the set of names hidden from it. */
  datatype Word = Word(isName: bool, name: int, hidden: set<Macro>)

  /** The name of a macro that is not hidden. */
  predicate Live(defs: Definitions, w: Word) {
    w.isName && w.name in defs && w.name !in w.hidden
  }

  /** A replacement, with what was hidden from the name and the name itself hidden from it. */
  function Hiding(body: seq<Token>, hidden: set<Macro>): seq<Word> {
    seq(|body|, k requires 0 <= k < |body| =>
      Word(body[k].isName, body[k].name, if body[k].isName then hidden else {}))
  }

  function Replacement(defs: Definitions, w: Word): seq<Word>
    requires Live(defs, w)
  {
    Hiding(defs[w.name], w.hidden + {w.name})
  }

  // ----- termination -----

  ghost predicate Bounds(defs: Definitions, b: nat) {
    b > 0 && forall m :: m in defs ==> |defs[m]| < b
  }

  lemma {:induction false} BoundExists(defs: Definitions, keys: set<Macro>) returns (b: nat)
    requires keys <= defs.Keys
    ensures b > 0 && forall m :: m in keys ==> |defs[m]| < b
    decreases keys
  {
    b := 1;
    if keys != {} {
      var m := Pick(keys);
      b := BoundExists(defs, keys - {m});
      if b <= |defs[m]| { b := |defs[m]| + 1; }
    }
  }

  lemma SomeBound(defs: Definitions)
    ensures exists b: nat :: Bounds(defs, b)
  {
    var b := BoundExists(defs, defs.Keys);
    assert Bounds(defs, b);
  }

  /** More than the length of any replacement. */
  ghost function Base(defs: Definitions): (b: nat)
    ensures Bounds(defs, b)
  {
    SomeBound(defs);
    var b: nat :| Bounds(defs, b);
    b
  }

  ghost function Power(b: nat, n: nat): nat {
    if n == 0 then 1 else b * Power(b, n - 1)
  }

  lemma {:induction false} PowerPositive(b: nat, n: nat)
    requires b > 0
    ensures Power(b, n) > 0
  {
    if n > 0 { PowerPositive(b, n - 1); }
  }

  /** A live name weighs Base to the number of macros not hidden from it. */
  ghost function Weight(defs: Definitions, w: Word): nat {
    if Live(defs, w) then Power(Base(defs), |defs.Keys - w.hidden|) else 1
  }

  ghost function Measure(defs: Definitions, ws: seq<Word>): nat {
    if ws == [] then 0 else Weight(defs, ws[0]) + Measure(defs, ws[1..])
  }

  lemma {:induction false} MeasureBoth(defs: Definitions, a: seq<Word>, b: seq<Word>)
    ensures Measure(defs, a + b) == Measure(defs, a) + Measure(defs, b)
    decreases |a|
  {
    if a == [] {
      assert a + b == b;
    } else {
      assert (a + b)[1..] == a[1..] + b;
      MeasureBoth(defs, a[1..], b);
    }
  }

  lemma {:induction false} MeasureAtMost(defs: Definitions, ws: seq<Word>, m: nat)
    requires forall k :: 0 <= k < |ws| ==> Weight(defs, ws[k]) <= m
    ensures Measure(defs, ws) <= |ws| * m
    decreases |ws|
  {
    hide Weight;
    if ws != [] { MeasureAtMost(defs, ws[1..], m); }
  }

  /** Replacing a live name by its replacement lowers the measure. */
  lemma {:induction false} ReplacementLighter(defs: Definitions, w: Word)
    requires Live(defs, w)
    ensures Measure(defs, Replacement(defs, w)) < Weight(defs, w)
  {
    var b, left := Base(defs), defs.Keys - w.hidden;
    var m := Power(b, |left| - 1);
    PowerPositive(b, |left| - 1);
    var ws := Replacement(defs, w);
    assert defs.Keys - (w.hidden + {w.name}) == left - {w.name};
    forall k | 0 <= k < |ws| ensures Weight(defs, ws[k]) <= m {
    }
    MeasureAtMost(defs, ws, m);
    FewerTimes(|ws|, b, m);
  }

  lemma FewerTimes(n: nat, b: nat, m: nat)
    requires n < b && m > 0
    ensures n * m < b * m
  {
  }

  lemma {:induction false} WeightPositive(defs: Definitions, w: Word)
    ensures Weight(defs, w) > 0
  {
    PowerPositive(Base(defs), |defs.Keys - w.hidden|);
  }

  /** What is left to scan weighs less after every step. */
  lemma {:induction false} ScanLighter(defs: Definitions, ws: seq<Word>)
    requires ws != []
    ensures Measure(defs, ws[1..]) < Measure(defs, ws)
    ensures Live(defs, ws[0]) ==> Measure(defs, Replacement(defs, ws[0]) + ws[1..]) < Measure(defs, ws)
  {
    WeightPositive(defs, ws[0]);
    if Live(defs, ws[0]) {
      ReplacementLighter(defs, ws[0]);
      MeasureBoth(defs, Replacement(defs, ws[0]), ws[1..]);
    }
  }

  /** The words with all macros expanded. */
  ghost function Expansion(defs: Definitions, ws: seq<Word>): seq<Word>
    decreases Measure(defs, ws)
  {
    if ws == [] then []
    else
      ScanLighter(defs, ws);
      if Live(defs, ws[0]) then Expansion(defs, Replacement(defs, ws[0]) + ws[1..])
      else [ws[0]] + Expansion(defs, ws[1..])
  }

  /** No name of a macro is left but those that are hidden. */
  lemma {:induction false} ExpansionComplete(defs: Definitions, ws: seq<Word>)
    ensures forall w :: w in Expansion(defs, ws) && w.isName && w.name in defs ==> w.name in w.hidden
    decreases Measure(defs, ws)
  {
    if ws != [] {
      ScanLighter(defs, ws);
      if Live(defs, ws[0]) {
        ExpansionComplete(defs, Replacement(defs, ws[0]) + ws[1..]);
      } else {
        ExpansionComplete(defs, ws[1..]);
      }
    }
  }

  /** What takes the place of name w: its replacement, every name in it hidden what was hidden from w, and w. */
  ghost predicate Replaces(body: seq<Token>, w: Word, ws: seq<Word>) {
    && |ws| == |body|
    && forall k :: 0 <= k < |body| ==>
         && ws[k].isName == body[k].isName && ws[k].name == body[k].name
         && (body[k].isName ==> forall m :: m in ws[k].hidden <==> m in w.hidden || m == w.name)
         && (!body[k].isName ==> ws[k].hidden == {})
  }

  /** The algorithm as a relation: ws becomes out, in at most n steps of the scan. */
  ghost predicate Becomes(defs: Definitions, ws: seq<Word>, out: seq<Word>, n: nat)
    decreases n
  {
    if ws == [] then out == []
    else
      && n > 0
      && if ws[0].isName && ws[0].name in defs && ws[0].name !in ws[0].hidden
         then exists t :: Replaces(defs[ws[0].name], ws[0], t) && Becomes(defs, t + ws[1..], out, n - 1)
         else out != [] && out[0] == ws[0] && Becomes(defs, ws[1..], out[1..], n - 1)
  }

  lemma ReplacesOne(defs: Definitions, w: Word, t: seq<Word>)
    requires Live(defs, w)
    ensures Replaces(defs[w.name], w, t) <==> t == Replacement(defs, w)
  {
    var r := Replacement(defs, w);
    if Replaces(defs[w.name], w, t) {
      forall k | 0 <= k < |t| ensures t[k] == r[k] {
        assert forall m :: m in t[k].hidden <==> m in r[k].hidden;
      }
    }
  }

  /** The expansion is what the words become, and nothing else is. */
  lemma {:induction false} ExpansionIs(defs: Definitions, ws: seq<Word>, out: seq<Word>, n: nat)
    ensures Becomes(defs, ws, out, n) ==> out == Expansion(defs, ws)
    ensures Becomes(defs, ws, Expansion(defs, ws), Measure(defs, ws))
    decreases Measure(defs, ws), n
  {
    hide Measure, Replaces, Replacement;
    if ws != [] {
      ScanLighter(defs, ws);
      if Live(defs, ws[0]) {
        LiveBecomes(defs, ws, out, n);
      } else {
        ExpansionIs(defs, ws[1..], out[if out == [] then 0 else 1..], if n > 0 then n - 1 else 0);
        BecomesLonger(defs, ws[1..], Expansion(defs, ws[1..]), Measure(defs, ws[1..]), Measure(defs, ws) - 1);
      }
    }
  }

  lemma {:induction false} LiveBecomes(defs: Definitions, ws: seq<Word>, out: seq<Word>, n: nat)
    requires ws != [] && Live(defs, ws[0])
    ensures Becomes(defs, ws, out, n) ==> out == Expansion(defs, ws)
    ensures Becomes(defs, ws, Expansion(defs, ws), Measure(defs, ws))
    decreases Measure(defs, ws), n, 0
  {
    hide Measure, Replaces, Replacement;
    ScanLighter(defs, ws);
    var r := Replacement(defs, ws[0]);
    ReplacesOne(defs, ws[0], r);
    ExpansionIs(defs, r + ws[1..], out, if n > 0 then n - 1 else 0);
    BecomesLonger(defs, r + ws[1..], Expansion(defs, r + ws[1..]), Measure(defs, r + ws[1..]), Measure(defs, ws) - 1);
    if Becomes(defs, ws, out, n) {
      var t :| Replaces(defs[ws[0].name], ws[0], t) && Becomes(defs, t + ws[1..], out, n - 1);
      ReplacesOne(defs, ws[0], t);
    }
  }

  lemma {:induction false} BecomesLonger(defs: Definitions, ws: seq<Word>, out: seq<Word>, m: nat, n: nat)
    requires Becomes(defs, ws, out, m) && m <= n
    ensures Becomes(defs, ws, out, n)
    decreases m
  {
    hide Replaces;
    if ws != [] {
      if ws[0].isName && ws[0].name in defs && ws[0].name !in ws[0].hidden {
        var t :| Replaces(defs[ws[0].name], ws[0], t) && Becomes(defs, t + ws[1..], out, m - 1);
        BecomesLonger(defs, t + ws[1..], out, m - 1, n - 1);
      } else {
        BecomesLonger(defs, ws[1..], out[1..], m - 1, n - 1);
      }
    }
  }

  /** Object-like macros expand token by token, whatever follows. */
  lemma {:induction false} ExpansionBoth(defs: Definitions, a: seq<Word>, b: seq<Word>)
    ensures Expansion(defs, a + b) == Expansion(defs, a) + Expansion(defs, b)
    decreases Measure(defs, a)
  {
    hide Measure, Live, Replacement;
    if a == [] {
      assert a + b == b;
    } else {
      ScanLighter(defs, a);
      ScanLighter(defs, a + b);
      assert (a + b)[1..] == a[1..] + b;
      if Live(defs, a[0]) {
        var t := Replacement(defs, a[0]);
        assert t + (a[1..] + b) == (t + a[1..]) + b;
        ExpansionBoth(defs, t + a[1..], b);
      } else {
        ExpansionBoth(defs, a[1..], b);
        assert [a[0]] + (Expansion(defs, a[1..]) + Expansion(defs, b))
            == ([a[0]] + Expansion(defs, a[1..])) + Expansion(defs, b);
      }
    }
  }

  // ----- tokens as words -----

  function WordOf(hidesets: seq<seq<Macro>>, t: Token): Word
    requires t.hideset < |hidesets|
  {
    Word(t.isName, t.name, Members(hidesets[t.hideset]))
  }

  ghost predicate TokensOk(hidesets: seq<seq<Macro>>, defs: Definitions, tokens: seq<Token>) {
    forall k :: 0 <= k < |tokens| ==>
      tokens[k].hideset < |hidesets| && Members(hidesets[tokens[k].hideset]) <= defs.Keys
  }

  function WordsOf(hidesets: seq<seq<Macro>>, tokens: seq<Token>): (ws: seq<Word>)
    requires forall k :: 0 <= k < |tokens| ==> tokens[k].hideset < |hidesets|
    ensures |ws| == |tokens|
  {
    seq(|tokens|, k requires 0 <= k < |tokens| => WordOf(hidesets, tokens[k]))
  }

  /** New sets in the table leave the meaning of tokens as it is. */
  lemma WordsKept(hidesets: seq<seq<Macro>>, more: seq<seq<Macro>>, defs: Definitions, tokens: seq<Token>)
    requires hidesets <= more && TokensOk(hidesets, defs, tokens)
    ensures TokensOk(more, defs, tokens) && WordsOf(more, tokens) == WordsOf(hidesets, tokens)
  {
  }

  lemma WordsSpliced(hidesets: seq<seq<Macro>>, tokens: seq<Token>, at: nat, t: seq<Token>)
    requires at < |tokens| && (forall k :: 0 <= k < |tokens| ==> tokens[k].hideset < |hidesets|)
    requires forall k :: 0 <= k < |t| ==> t[k].hideset < |hidesets|
    ensures
      var row := Spliced(tokens, at, 1, t);
      && (forall k :: 0 <= k < |row| ==> row[k].hideset < |hidesets|)
      && WordsOf(hidesets, row[..at]) == WordsOf(hidesets, tokens[..at])
      && WordsOf(hidesets, row[at..]) == WordsOf(hidesets, t) + WordsOf(hidesets, tokens[at..])[1..]
  {
  }

  // ----- expandrow -----

  /** expand distributes the new hideset over the names of the replacement. */
  method Distribute(body: seq<Token>, hs: nat) returns (ntr: seq<Token>)
    requires forall k :: 0 <= k < |body| ==> body[k].hideset == 0
    ensures |ntr| == |body|
    ensures forall k :: 0 <= k < |ntr| ==> ntr[k] == body[k].(hideset := if body[k].isName then hs else 0)
  {
    ntr := body;
    var k := 0;
    while k < |ntr|
      invariant 0 <= k <= |ntr| == |body|
      invariant forall i :: 0 <= i < k ==> ntr[i] == body[i].(hideset := if body[i].isName then hs else 0)
      invariant forall i :: k <= i < |ntr| ==> ntr[i] == body[i]
    {
      if ntr[k].isName {
        ntr := ntr[k := ntr[k].(hideset := hs)];
      }
      k := k + 1;
    }
  }

  lemma DistributedWords(hidesets: seq<seq<Macro>>, defs: Definitions, body: seq<Token>, ntr: seq<Token>, hs: nat,
                         hidden: set<Macro>)
    requires hidesets != [] && hidesets[0] == [0] && hs < |hidesets| && Members(hidesets[hs]) == hidden
        && hidden <= defs.Keys
    requires |ntr| == |body|
    requires forall k :: 0 <= k < |ntr| ==> ntr[k] == body[k].(hideset := if body[k].isName then hs else 0)
    ensures TokensOk(hidesets, defs, ntr) && WordsOf(hidesets, ntr) == Hiding(body, hidden)
  {
    assert Members(hidesets[0]) == {};
  }

  /** The row as words, and what it has to become: the expansion of the words it began with. */
  ghost predicate Scanned(hidesets: seq<seq<Macro>>, defs: Definitions, row: seq<Token>, tp: nat, goal: seq<Word>) {
    && tp <= |row| && TokensOk(hidesets, defs, row)
    && WordsOf(hidesets, row[..tp]) + Expansion(defs, WordsOf(hidesets, row[tp..])) == goal
  }

  /** The measure of what is left to scan. */
  ghost function Left(hidesets: seq<seq<Macro>>, defs: Definitions, row: seq<Token>, tp: nat): nat {
    if tp <= |row| && TokensOk(hidesets, defs, row) then Measure(defs, WordsOf(hidesets, row[tp..])) else 0
  }

  lemma ScannedNext(hidesets: seq<seq<Macro>>, defs: Definitions, row: seq<Token>, tp: nat, goal: seq<Word>)
    requires Scanned(hidesets, defs, row, tp, goal) && tp < |row| && !Live(defs, WordOf(hidesets, row[tp]))
    ensures Scanned(hidesets, defs, row, tp + 1, goal)
    ensures Left(hidesets, defs, row, tp + 1) < Left(hidesets, defs, row, tp)
  {
    var ws := WordsOf(hidesets, row[tp..]);
    assert ws[1..] == WordsOf(hidesets, row[tp + 1..]);
    assert WordsOf(hidesets, row[..tp + 1]) == WordsOf(hidesets, row[..tp]) + [ws[0]];
    ScanLighter(defs, ws);
  }

  lemma {:induction false} ScannedReplaced(hidesets: seq<seq<Macro>>, defs: Definitions, row: seq<Token>, tp: nat,
                                           ntr: seq<Token>, goal: seq<Word>)
    requires Scanned(hidesets, defs, row, tp, goal) && tp < |row| && Live(defs, WordOf(hidesets, row[tp]))
    requires TokensOk(hidesets, defs, ntr)
    requires WordsOf(hidesets, ntr) == Replacement(defs, WordOf(hidesets, row[tp]))
    ensures Scanned(hidesets, defs, Spliced(row, tp, 1, ntr), tp, goal)
    ensures Left(hidesets, defs, Spliced(row, tp, 1, ntr), tp) < Left(hidesets, defs, row, tp)
  {
    var ws, row' := WordsOf(hidesets, row[tp..]), Spliced(row, tp, 1, ntr);
    assert ws[0] == WordOf(hidesets, row[tp]);
    WordsSpliced(hidesets, row, tp, ntr);
    ScanLighter(defs, ws);
    assert TokensOk(hidesets, defs, row') by {
      forall k | 0 <= k < |row'| ensures row'[k].hideset < |hidesets|
          && Members(hidesets[row'[k].hideset]) <= defs.Keys {
        if tp <= k < tp + |ntr| { assert row'[k] == ntr[k - tp]; }
      }
    }
  }

  lemma {:induction false} ScannedKept(hidesets: seq<seq<Macro>>, more: seq<seq<Macro>>, defs: Definitions,
                                       row: seq<Token>, tp: nat, goal: seq<Word>)
    requires Scanned(hidesets, defs, row, tp, goal) && hidesets <= more
    ensures Scanned(more, defs, row, tp, goal)
    ensures Left(more, defs, row, tp) == Left(hidesets, defs, row, tp)
    ensures tp < |row| ==> WordOf(more, row[tp]) == WordOf(hidesets, row[tp])
  {
    WordsKept(hidesets, more, defs, row);
    WordsKept(hidesets, more, defs, row[..tp]);
    WordsKept(hidesets, more, defs, row[tp..]);
  }

  /** expand: the name at tp becomes its replacement, scanned again from its start. */
  method Expand(trp: Tokenrow, table: Table, defs: Definitions, ghost goal: seq<Word>)
    requires trp.Valid() && table.Valid() && DefinitionsOk(defs) && trp.tp < trp.lp
    requires Scanned(table.hidesets, defs, trp.Contents(), trp.tp, goal)
    requires Live(defs, WordOf(table.hidesets, trp.Contents()[trp.tp]))
    modifies trp, trp.bp, table
    ensures trp.Valid() && table.Valid() && trp.tp == old(trp.tp) && (trp.bp == old(trp.bp) || fresh(trp.bp))
    ensures old(table.hidesets) <= table.hidesets
    ensures Scanned(table.hidesets, defs, trp.Contents(), trp.tp, goal)
    ensures Left(table.hidesets, defs, trp.Contents(), trp.tp)
          < old(Left(table.hidesets, defs, trp.Contents(), trp.tp))
  {
    hide Left, WordsOf, Expansion;
    var t := trp.bp[trp.tp];
    ghost var row, before := trp.Contents(), table.hidesets;
    var hs := HideName(table, defs, t);
    ScannedKept(before, table.hidesets, defs, row, trp.tp, goal);
    var ntr := Distribute(defs[t.name], hs);
    DistributedWords(table.hidesets, defs, defs[t.name], ntr, hs, table.Set(hs));
    ScannedReplaced(table.hidesets, defs, row, trp.tp, ntr, goal);
    trp.InsertRow(1, ntr);
    trp.tp := trp.tp - |ntr|;
  }

  /** The hideset of a live name, with the name added. */
  method HideName(table: Table, defs: Definitions, t: Token) returns (hs: nat)
    requires table.Valid() && DefinitionsOk(defs) && t.hideset < |table.hidesets|
    requires Members(table.hidesets[t.hideset]) <= defs.Keys && t.name in defs
    modifies table
    ensures table.Valid() && old(table.hidesets) <= table.hidesets && hs < |table.hidesets|
    ensures table.Set(hs) == old(table.Set(t.hideset)) + {t.name} <= defs.Keys
  {
    SubsetSize(table.Set(t.hideset) + {t.name}, defs.Keys);
    hs := table.NewHideset(t.hideset, t.name);
  }

  /**
   * expandrow on object-like macros: ends, and leaves the tokens that the algorithm on sets
   * leaves, from tp to the end of the row.
   */
  method ExpandRow(trp: Tokenrow, table: Table, defs: Definitions)
    requires trp.Valid() && table.Valid() && DefinitionsOk(defs)
    requires TokensOk(table.hidesets, defs, trp.Contents())
    modifies trp, trp.bp, table
    ensures trp.Valid() && table.Valid() && old(table.hidesets) <= table.hidesets
    ensures TokensOk(table.hidesets, defs, trp.Contents())
    ensures WordsOf(table.hidesets, trp.Contents()) ==
      old(WordsOf(table.hidesets, trp.Contents()[..trp.tp])
          + Expansion(defs, WordsOf(table.hidesets, trp.Contents()[trp.tp..])))
  {
    hide Scanned, Left, Expansion, DefinitionsOk;
    ghost var goal := WordsOf(table.hidesets, trp.Contents()[..trp.tp])
                    + Expansion(defs, WordsOf(table.hidesets, trp.Contents()[trp.tp..]));
    ScannedNothing(table.hidesets, defs, trp.Contents(), trp.tp);
    while trp.tp < trp.lp
      invariant trp.Valid() && table.Valid() && old(table.hidesets) <= table.hidesets
      invariant trp.bp == old(trp.bp) || fresh(trp.bp)
      invariant Scanned(table.hidesets, defs, trp.Contents(), trp.tp, goal)
      decreases Left(table.hidesets, defs, trp.Contents(), trp.tp)
    {
      var live := IsLive(trp.bp[trp.tp], table, defs, trp.Contents(), trp.tp, goal);
      if live {
        Expand(trp, table, defs, goal);
      } else {
        ScannedNext(table.hidesets, defs, trp.Contents(), trp.tp, goal);
        trp.tp := trp.tp + 1;
      }
    }
    ScannedAll(table.hidesets, defs, trp.Contents(), goal);
  }

  /** The tests at the head of the loop of expandrow. */
  method IsLive(t: Token, table: Table, defs: Definitions, ghost row: seq<Token>, ghost tp: nat, ghost goal: seq<Word>)
    returns (live: bool)
    requires table.Valid() && DefinitionsOk(defs) && Scanned(table.hidesets, defs, row, tp, goal)
    requires tp < |row| && t == row[tp]
    ensures t.hideset < |table.hidesets| && (live <==> t.isName && t.name in defs && t.name !in table.Set(t.hideset))
  {
    live := t.isName && t.name in defs;
    if live && t.hideset != 0 {
      var hidden := table.CheckHideset(t.hideset, t.name);
      live := !hidden;
    }
    assert Members([0]) == {};
  }

  lemma {:induction false} ScannedNothing(hidesets: seq<seq<Macro>>, defs: Definitions, row: seq<Token>, tp: nat)
    requires tp <= |row| && TokensOk(hidesets, defs, row)
    ensures Scanned(hidesets, defs, row, tp,
                    WordsOf(hidesets, row[..tp]) + Expansion(defs, WordsOf(hidesets, row[tp..])))
  {
  }

  lemma {:induction false} ScannedAll(hidesets: seq<seq<Macro>>, defs: Definitions, row: seq<Token>, goal: seq<Word>)
    requires Scanned(hidesets, defs, row, |row|, goal)
    ensures TokensOk(hidesets, defs, row) && WordsOf(hidesets, row) == goal
  {
  }
}
