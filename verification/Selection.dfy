/** Choosing one row per group: the visible row of highest rank, the earliest listed among equals. */
module Selection {
  import opened Options

  /** Why a row is denied, if it is; its group; and which of two rows ranks strictly higher. */
  datatype Rules<!R, !D> = Rules(denial: R -> Option<D>, group: R -> string, above: (R, R) -> bool)

  ghost predicate IsRanking<R(!new), D>(rules: Rules<R, D>) {
    && (forall x, y :: rules.above(x, y) ==> !rules.above(y, x))
    && (forall x, y, z :: !rules.above(x, y) && !rules.above(y, z) ==> !rules.above(x, z))
  }

  predicate Visible<R, D>(rules: Rules<R, D>, r: R) {
    rules.denial(r).None?
  }

  predicate Competes<R, D>(rules: Rules<R, D>, r: R, group: string) {
    Visible(rules, r) && rules.group(r) == group
  }

  /** Row `i` is the group's choice. */
  ghost predicate IsChoice<R, D>(rows: seq<R>, rules: Rules<R, D>, group: string, i: nat) {
    && i < |rows| && Competes(rules, rows[i], group)
    && (forall j :: 0 <= j < |rows| && Competes(rules, rows[j], group) ==>
          (if j < i then rules.above(rows[i], rows[j]) else !rules.above(rows[j], rows[i])))
  }

  ghost predicate Chosen<R, D>(rows: seq<R>, rules: Rules<R, D>, group: string, r: R) {
    exists i: nat :: IsChoice(rows, rules, group, i) && rows[i] == r
  }

  ghost predicate HasGroup<R, D>(selected: seq<R>, rules: Rules<R, D>, group: string) {
    exists k :: 0 <= k < |selected| && rules.group(selected[k]) == group
  }

  predicate IsFirstVisible<R, D>(rows: seq<R>, rules: Rules<R, D>, i: nat) {
    i < |rows| && Visible(rules, rows[i]) && forall j :: 0 <= j < i ==> !Visible(rules, rows[j])
  }

  /** The first group listed is that of the first visible row. */
  ghost predicate FirstGroup<R, D>(rows: seq<R>, rules: Rules<R, D>, order: seq<string>) {
    if order == [] then forall i :: 0 <= i < |rows| ==> !Visible(rules, rows[i])
    else exists i: nat :: IsFirstVisible(rows, rules, i) && rules.group(rows[i]) == order[0]
  }

  /** One choice for each group that has a visible row; the first one belongs to the first visible row's group. */
  ghost predicate IsSelection<R, D>(rows: seq<R>, rules: Rules<R, D>, selected: seq<R>) {
    && (forall k :: 0 <= k < |selected| ==> Chosen(rows, rules, rules.group(selected[k]), selected[k]))
    && (forall i :: 0 <= i < |rows| && Visible(rules, rows[i]) ==> HasGroup(selected, rules, rules.group(rows[i])))
    && (forall k, n :: 0 <= k < n < |selected| ==> rules.group(selected[k]) != rules.group(selected[n]))
    && FirstGroup(rows, rules, if selected == [] then [] else [rules.group(selected[0])])
  }

  function DeniedOf<R, D>(rows: seq<R>, rules: Rules<R, D>): seq<(R, D)> {
    if rows == [] then []
    else
      var last := rows[|rows| - 1];
      var denial := rules.denial(last);
      DeniedOf(rows[..|rows| - 1], rules) + (if denial.Some? then [(last, denial.value)] else [])
  }

  lemma ChoiceAfterOneMore<R(!new), D>(rows: seq<R>, rules: Rules<R, D>, group: string, i: nat, r: R)
    requires IsRanking(rules) && IsChoice(rows, rules, group, i)
    ensures !Competes(rules, r, group) || !rules.above(r, rows[i]) ==> IsChoice(rows + [r], rules, group, i)
    ensures Competes(rules, r, group) && rules.above(r, rows[i]) ==> IsChoice(rows + [r], rules, group, |rows|)
  {
    var all := rows + [r];
    assert all[i] == rows[i] && all[|rows|] == r;
    forall j | 0 <= j < |all| && Competes(rules, all[j], group) && rules.above(r, rows[i])
      ensures if j < |rows| then rules.above(r, all[j]) else !rules.above(all[j], r)
    {
      assert j < |rows| ==> all[j] == rows[j];
    }
    assert forall j :: 0 <= j < |rows| ==> all[j] == rows[j];
  }

  /** The chosen row of every group that has a visible row so far. */
  ghost predicate Best<R, D>(rows: seq<R>, rules: Rules<R, D>, best: map<string, R>) {
    && (forall group :: group in best ==> Chosen(rows, rules, group, best[group]))
    && (forall i :: 0 <= i < |rows| && Visible(rules, rows[i]) ==> rules.group(rows[i]) in best)
  }

  function Updated<R, D>(best: map<string, R>, rules: Rules<R, D>, r: R): map<string, R> {
    var group := rules.group(r);
    if group !in best || rules.above(r, best[group]) then best[group := r] else best
  }

  lemma ChosenStays<R(!new), D>(rows: seq<R>, rules: Rules<R, D>, group: string, best: R, r: R)
    requires IsRanking(rules) && Chosen(rows, rules, group, best)
    ensures Chosen(rows + [r], rules, group, if Competes(rules, r, group) && rules.above(r, best) then r else best)
  {
    var i: nat :| IsChoice(rows, rules, group, i) && rows[i] == best;
    ChoiceAfterOneMore(rows, rules, group, i, r);
    assert (rows + [r])[i] == best && (rows + [r])[|rows|] == r;
  }

  lemma NewGroup<R(!new), D>(rows: seq<R>, rules: Rules<R, D>, r: R, best: map<string, R>)
    requires IsRanking(rules) && Visible(rules, r) && Best(rows, rules, best) && rules.group(r) !in best
    ensures Chosen(rows + [r], rules, rules.group(r), r)
  {
    assert IsChoice(rows + [r], rules, rules.group(r), |rows|);
  }

  lemma BestAfterOneMore<R(!new), D>(rows: seq<R>, rules: Rules<R, D>, best: map<string, R>, r: R)
    requires IsRanking(rules) && Best(rows, rules, best)
    ensures Best(rows + [r], rules, if Visible(rules, r) then Updated(best, rules, r) else best)
  {
    var after := if Visible(rules, r) then Updated(best, rules, r) else best;
    forall group | group in after
      ensures Chosen(rows + [r], rules, group, after[group])
    {
      if group in best {
        ChosenStays(rows, rules, group, best[group], r);
      } else {
        NewGroup(rows, rules, r, best);
      }
    }
    forall i | 0 <= i < |rows + [r]| && Visible(rules, (rows + [r])[i])
      ensures rules.group((rows + [r])[i]) in after
    {
      if i < |rows| {
        assert (rows + [r])[i] == rows[i];
      }
    }
  }

  lemma FirstGroupStays<R, D>(rows: seq<R>, rules: Rules<R, D>, order: seq<string>, r: R)
    requires FirstGroup(rows, rules, order)
    ensures FirstGroup(rows + [r], rules,
      if !Visible(rules, r) || rules.group(r) in order then order else order + [rules.group(r)])
  {
    var all := rows + [r];
    assert forall i :: 0 <= i < |rows| ==> all[i] == rows[i];
    if order != [] {
      var i: nat :| IsFirstVisible(rows, rules, i) && rules.group(rows[i]) == order[0];
      assert IsFirstVisible(all, rules, i) && all[i] == rows[i];
    } else if Visible(rules, r) {
      assert IsFirstVisible(all, rules, |rows|) && all[|rows|] == r;
    }
  }

  lemma BestIsSelection<R, D>(rows: seq<R>, rules: Rules<R, D>, best: map<string, R>, order: seq<string>, selected: seq<R>)
    requires Best(rows, rules, best) && FirstGroup(rows, rules, order)
    requires forall k, m :: 0 <= k < m < |order| ==> order[k] != order[m]
    requires forall group :: group in best <==> group in order
    requires |selected| == |order| && forall k :: 0 <= k < |order| ==> order[k] in best && selected[k] == best[order[k]]
    ensures IsSelection(rows, rules, selected)
  {
    forall k | 0 <= k < |order|
      ensures rules.group(selected[k]) == order[k] && Chosen(rows, rules, order[k], selected[k])
    {
      var i: nat :| IsChoice(rows, rules, order[k], i) && rows[i] == best[order[k]];
    }
    forall i | 0 <= i < |rows| && Visible(rules, rows[i])
      ensures HasGroup(selected, rules, rules.group(rows[i]))
    {
      assert rules.group(rows[i]) in order;
      var k :| 0 <= k < |order| && order[k] == rules.group(rows[i]);
      assert rules.group(selected[k]) == order[k];
    }
    if order != [] {
      assert rules.group(selected[0]) == order[0];
    }
  }

  method SelectVisible<R(!new), D>(rows: seq<R>, rules: Rules<R, D>) returns (selected: seq<R>, denied: seq<(R, D)>)
    requires IsRanking(rules)
    ensures IsSelection(rows, rules, selected)
    ensures denied == DeniedOf(rows, rules)
  {
    var best: map<string, R>, order: seq<string> := map[], [];
    denied := [];
    for n := 0 to |rows|
      invariant denied == DeniedOf(rows[..n], rules)
      invariant forall k, m :: 0 <= k < m < |order| ==> order[k] != order[m]
      invariant forall group :: group in best <==> group in order
      invariant Best(rows[..n], rules, best) && FirstGroup(rows[..n], rules, order)
    {
      var r := rows[n];
      assert rows[..n + 1] == rows[..n] + [r] && rows[..n + 1][..n] == rows[..n];
      BestAfterOneMore(rows[..n], rules, best, r);
      FirstGroupStays(rows[..n], rules, order, r);
      var denial := rules.denial(r);
      if denial.Some? {
        denied := denied + [(r, denial.value)];
      } else {
        var group := rules.group(r);
        if group !in best || rules.above(r, best[group]) {
          if group !in best {
            order := order + [group];
          }
          best := best[group := r];
        }
      }
    }
    assert rows[..|rows|] == rows;
    selected := seq(|order|, k requires 0 <= k < |order| && order[k] in best => best[order[k]]);
    BestIsSelection(rows, rules, best, order, selected);
  }
}
