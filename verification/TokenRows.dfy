// Rows of tokens and their splicing (lcc/cpp/tokens.c).

module TokenRows {

  /** name is the name of a NAME token; hideset an index in the table of hidesets. */
  datatype Token = Token(isName: bool, name: int, hideset: nat)

  /** s with n elements from position at replaced by t. */
  function Spliced<T>(s: seq<T>, at: nat, n: nat, t: seq<T>): seq<T>
    requires at + n <= |s|
  {
    s[..at] + t + s[at + n..]
  }

  class Tokenrow {
    var bp: array<Token>  // its length is max
    var tp: nat           // the current token
    var lp: nat           // one past the last token used

    ghost predicate Valid()
      reads this
    {
      tp <= lp <= bp.Length
    }

    ghost function Contents(): seq<Token>
      reads this, bp
      requires Valid()
    {
      bp[..lp]
    }

    constructor (tokens: seq<Token>)
      ensures Valid() && fresh(bp) && Contents() == tokens && tp == 0
    {
      bp := new Token[|tokens|](i requires 0 <= i < |tokens| => tokens[i]);
      tp := 0;
      lp := |tokens|;
    }

    /** growtokenrow: room for half as many tokens again. */
    method Grow()
      requires Valid()
      modifies this`bp
      ensures Valid() && fresh(bp) && bp.Length > old(bp.Length) && Contents() == old(Contents())
    {
      var old' := bp;
      var n := 3 * bp.Length / 2 + 1;
      var room := new Token[n];
      var k := 0;
      while k < lp
        invariant 0 <= k <= lp && forall i :: 0 <= i < k ==> room[i] == old'[i]
      {
        room[k] := old'[k];
        k := k + 1;
      }
      bp := room;
      assert bp[..lp] == old'[..lp];
    }

    // memmove to the left copies forwards, to the right backwards.
    method MoveLeft(from: nat, to: nat, n: nat)
      requires to <= from && from + n <= bp.Length
      modifies bp
      ensures forall i :: 0 <= i < bp.Length ==> bp[i] == old(if to <= i < to + n then bp[i + (from - to)] else bp[i])
    {
      ghost var was := bp[..];
      var k := 0;
      while k < n
        invariant 0 <= k <= n
        invariant forall i :: to <= i < to + k ==> bp[i] == was[i + (from - to)]
        invariant forall i :: 0 <= i < to ==> bp[i] == was[i]
        invariant forall i :: to + k <= i < bp.Length ==> bp[i] == was[i]
      {
        bp[to + k] := bp[from + k];
        k := k + 1;
      }
    }

    method MoveRight(from: nat, to: nat, n: nat)
      requires from <= to && to + n <= bp.Length
      modifies bp
      ensures forall i :: 0 <= i < bp.Length ==> bp[i] == old(if to <= i < to + n then bp[i + (from - to)] else bp[i])
    {
      ghost var was := bp[..];
      var k := n;
      while k > 0
        invariant 0 <= k <= n
        invariant forall i :: to + k <= i < to + n ==> bp[i] == was[i + (from - to)]
        invariant forall i :: 0 <= i < to + k ==> bp[i] == was[i]
        invariant forall i :: to + n <= i < bp.Length ==> bp[i] == was[i]
      {
        k := k - 1;
        bp[to + k] := bp[from + k];
      }
    }

    /** memmove of the tokens from position from on to position to. */
    method MoveTail(from: nat, to: nat)
      requires Valid() && from <= lp && to + (lp - from) <= bp.Length
      modifies bp
      ensures bp[..] == old(bp[..to] + bp[from..lp] + bp[to + (lp - from)..])
    {
      if to <= from {
        MoveLeft(from, to, lp - from);
      } else {
        MoveRight(from, to, lp - from);
      }
    }

    method Reserve(size: int)
      requires Valid()
      modifies this`bp
      ensures Valid() && size <= bp.Length && Contents() == old(Contents()) && (bp == old(bp) || fresh(bp))
    {
      while size > bp.Length
        invariant Valid() && Contents() == old(Contents()) && (bp == old(bp) || fresh(bp))
        decreases size - bp.Length
      {
        Grow();
      }
    }

    /** adjustrow: moves the tokens from tp on by nt, to the right or to the left. */
    method AdjustRow(nt: int)
      requires Valid() && tp + nt >= 0
      modifies this`bp, this`lp, bp
      ensures lp == old(lp) + nt && tp + nt <= lp <= bp.Length && (bp == old(bp) || fresh(bp))
      ensures Shifted(old(Contents()), bp[..lp], tp, nt)
    {
      hide Shifted;
      if nt == 0 {
        Unmoved(Contents(), tp);
        return;
      }
      Reserve(lp + nt);
      ghost var was := bp[..];
      ghost var row := Contents();
      assert row == was[..lp];
      MoveTail(tp, tp + nt);
      Moved(was, bp[..], tp, lp, nt);
      assert bp[..][..lp + nt] == bp[..lp + nt];
      lp := lp + nt;
    }

    /** movetokenrow: copies a row over this one, at tp. */
    method MoveTokenRow(str: seq<Token>)
      requires tp + |str| <= bp.Length
      modifies bp
      ensures bp[..] == old(bp[..tp]) + str + old(bp[tp + |str|..])
    {
      var k := 0;
      while k < |str|
        invariant 0 <= k <= |str|
        invariant forall i :: 0 <= i < bp.Length ==> bp[i] == if tp <= i < tp + k then str[i - tp] else old(bp[i])
      {
        bp[tp + k] := str[k];
        k := k + 1;
      }
    }

    /** Makes the ntok tokens at tp into n, whatever they are then. */
    method MakeRoom(ntok: nat, n: nat)
      requires Valid() && tp + ntok <= lp
      modifies this, bp
      ensures Valid() && (bp == old(bp) || fresh(bp)) && tp == old(tp) && tp + n <= lp <= bp.Length
      ensures Shifted(old(Contents()), bp[..lp], tp + ntok, n - ntok)
    {
      hide Shifted;
      tp := tp + ntok;
      AdjustRow(n - ntok);
      tp := tp - ntok;
    }

    /** insertrow: replaces ntok tokens at tp by a row; tp ends up just beyond it. */
    method InsertRow(ntok: nat, str: seq<Token>)
      requires Valid() && tp + ntok <= lp
      modifies this, bp
      ensures Valid() && (bp == old(bp) || fresh(bp)) && tp == old(tp) + |str|
      ensures Contents() == Spliced(old(Contents()), old(tp), ntok, str)
    {
      hide Shifted, Spliced;
      ghost var was, at := Contents(), tp;
      MakeRoom(ntok, |str|);
      ghost var mid := bp[..];
      assert bp[..lp] == mid[..lp];
      MoveTokenRow(str);
      tp := tp + |str|;
      Inserted(was, mid, bp[..], at, ntok, str, lp);
      assert bp[..lp] == bp[..][..lp];
    }
  }

  /** row' is row with what follows position tp moved by nt. */
  ghost predicate Shifted<T>(row: seq<T>, row': seq<T>, tp: nat, nt: int)
    requires tp <= |row|
  {
    var kept := if nt < 0 then tp + nt else tp;
    0 <= kept && |row'| == |row| + nt && tp + nt <= |row'| && row'[..kept] == row[..kept]
        && row'[tp + nt..] == row[tp..]
  }

  lemma Unmoved<T>(row: seq<T>, tp: nat)
    requires tp <= |row|
    ensures Shifted(row, row, tp, 0)
  {
  }

  lemma Moved<T>(was: seq<T>, now: seq<T>, tp: nat, lp: nat, nt: int)
    requires tp <= lp <= |was| && tp + nt >= 0 && lp + nt <= |was|
    requires now == was[..tp + nt] + was[tp..lp] + was[lp + nt..]
    ensures |now| == |was| && Shifted(was[..lp], now[..lp + nt], tp, nt)
  {
  }

  lemma Inserted<T>(was: seq<T>, mid: seq<T>, now: seq<T>, at: nat, n: nat, str: seq<T>, lp: nat)
    requires at + n <= |was| && lp <= |mid| == |now| && Shifted(was, mid[..lp], at + n, |str| - n)
    requires at + |str| <= lp && now == mid[..at] + str + mid[at + |str|..]
    ensures now[..lp] == Spliced(was, at, n, str)
  {
    var row := mid[..lp];
    var kept := if |str| < n then at + |str| else at + n;
    assert mid[..at] == row[..kept][..at] == was[..kept][..at] == was[..at];
    assert mid[at + |str|..lp] == row[at + |str|..];
    assert now[..lp] == mid[..at] + str + mid[at + |str|..lp];
  }
}
