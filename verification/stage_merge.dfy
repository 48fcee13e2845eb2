/** `merge_shader_stage_layout_pair` and `merge_shader_stage_layouts`: combine
    the reflected layouts of several shader stages into one, keeping the
    first entry seen for each (set, binding) slot and rejecting two stages
    that put a different type or name in the same slot. */
module StageMerge {
  import opened Wrappers
  import opened Reflection

  /** Two reflected bindings may share a slot when type and name agree; the
      array count is not compared. */
  predicate Compatible(a: BindingInfo, b: BindingInfo) {
    a.ty == b.ty && a.name == b.name
  }

  /** Which of the two `assert!`s failed; the type is checked first. */
  datatype ConflictField = TypeMismatch | NameMismatch

  datatype Conflict = Conflict(setIndex: nat, binding: nat, field: ConflictField)

  /** Both layouts hold slot (s, b), with incompatible bindings. */
  predicate SlotConflict(src: StageLayout, dst: StageLayout, s: nat, b: nat) {
    HasSlot(src, s, b) && HasSlot(dst, s, b) && !Compatible(src[s][b], dst[s][b])
  }

  ghost predicate Conflicts(src: StageLayout, dst: StageLayout) {
    exists s, b :: SlotConflict(src, dst, s, b)
  }

  /** The reference merge of `src` into `dst`: every set and binding of
      either, where an entry already in `dst` is never replaced. */
  function Combine(src: StageLayout, dst: StageLayout): StageLayout {
    map s | s in src.Keys + dst.Keys ::
      if s in dst then (if s in src then src[s] + dst[s] else dst[s]) else src[s]
  }

  /** The merge holds the sets and slots of both layouts; a slot of `dst`
      keeps its binding, and `src` fills only the slots `dst` lacks. */
  lemma CombineSlots(src: StageLayout, dst: StageLayout, s: nat, b: nat)
    ensures s in Combine(src, dst) <==> s in src || s in dst
    ensures HasSlot(Combine(src, dst), s, b) <==> HasSlot(src, s, b) || HasSlot(dst, s, b)
    ensures HasSlot(dst, s, b) ==> Combine(src, dst)[s][b] == dst[s][b]
    ensures HasSlot(src, s, b) && !HasSlot(dst, s, b) ==> Combine(src, dst)[s][b] == src[s][b]
  {
  }

  lemma CombineEmpty(x: StageLayout)
    ensures Combine(x, map[]) == x
    ensures Combine(map[], x) == x
  {
  }

  /** Merging a layout into itself leaves it unchanged. */
  lemma CombineSelf(x: StageLayout)
    ensures !Conflicts(x, x)
    ensures Combine(x, x) == x
  {
    assert forall s | s in x :: Combine(x, x)[s] == x[s];
  }

  /** Merging is associative: which entry wins a slot depends only on the
      order of the layouts, not on how the merges are grouped. */
  lemma CombineAssociative(x: StageLayout, y: StageLayout, z: StageLayout)
    ensures Combine(x, Combine(y, z)) == Combine(Combine(x, y), z)
  {
    var yz, xy := Combine(y, z), Combine(x, y);
    var l, r := Combine(x, yz), Combine(xy, z);
    assert l.Keys == x.Keys + y.Keys + z.Keys == r.Keys;
    forall s | s in l
      ensures l[s] == r[s]
    {
      CombineAt(x, yz, s);
      CombineAt(y, z, s);
      CombineAt(xy, z, s);
      CombineAt(x, y, s);
      MapUnionAssociative(SetOrEmpty(x, s), SetOrEmpty(y, s), SetOrEmpty(z, s));
      assert SetOrEmpty(l, s) == SetOrEmpty(r, s);
    }
  }

  /** The bindings of set `s` in a layout, none if the set is absent. */
  function SetOrEmpty(x: StageLayout, s: nat): SetReflection {
    if s in x then x[s] else map[]
  }

  /** Per set, the merge is the plain map union in which `dst` wins. */
  lemma CombineAt(src: StageLayout, dst: StageLayout, s: nat)
    ensures SetOrEmpty(Combine(src, dst), s) == SetOrEmpty(src, s) + SetOrEmpty(dst, s)
  {
  }

  lemma MapUnionAssociative(a: SetReflection, b: SetReflection, c: SetReflection)
    ensures a + (b + c) == (a + b) + c
  {
  }

  /** A differing array count is not a conflict: the stage that came first
      keeps its count. */
  lemma FirstCountKept(x: StageLayout, s: nat, b: nat, count: nat)
    requires HasSlot(x, s, b)
    ensures var y := x[s := x[s][b := x[s][b].(count := count)]];
      !Conflicts(y, x) && Combine(y, x) == x
  {
    var y := x[s := x[s][b := x[s][b].(count := count)]];
    assert forall s', b' | HasSlot(y, s', b') :: HasSlot(x, s', b') && Compatible(y[s'][b'], x[s'][b']);
    assert forall s' | s' in x :: Combine(y, x)[s'] == x[s'];
  }

  /** The inner loop of `merge_shader_stage_layout_pair` for one set present
      in both layouts: insert each binding of `src` missing from `dst`, and
      fail on one that is present with a different type or name. */
  method MergeSetPair(setIndex: nat, src: SetReflection, dst: SetReflection) returns (r: Result<SetReflection, Conflict>)
    ensures r.Success? <==> forall b | b in src && b in dst :: Compatible(src[b], dst[b])
    ensures r.Success? ==> r.value == src + dst
    ensures r.Failure? ==>
      && r.error.setIndex == setIndex
      && r.error.binding in src && r.error.binding in dst
      && !Compatible(src[r.error.binding], dst[r.error.binding])
      && (r.error.field == TypeMismatch <==> src[r.error.binding].ty != dst[r.error.binding].ty)
  {
    var existing := dst;
    var todo := src.Keys;
    while todo != {}
      invariant todo <= src.Keys
      invariant existing == (src - todo) + dst
      invariant forall b | b in src && b !in todo && b in dst :: Compatible(src[b], dst[b])
      decreases todo
    {
      var b :| b in todo;
      if b in existing {
        assert b in dst && existing[b] == dst[b];
        if existing[b].ty != src[b].ty {
          return Failure(Conflict(setIndex, b, TypeMismatch));
        }
        if existing[b].name != src[b].name {
          return Failure(Conflict(setIndex, b, NameMismatch));
        }
      } else {
        existing := existing[b := src[b]];
      }
      todo := todo - {b};
    }
    assert src - todo == src;
    return Success(existing);
  }

  /** `merge_shader_stage_layout_pair(src, dst)`: merge `src` into `dst`,
      failing exactly when some slot of both holds bindings with a different
      type or name. */
  method MergeShaderStageLayoutPair(src: StageLayout, dst: StageLayout) returns (r: Result<StageLayout, Conflict>)
    ensures r.Success? <==> !Conflicts(src, dst)
    ensures r.Success? ==> r.value == Combine(src, dst)
    ensures r.Failure? ==> SlotConflict(src, dst, r.error.setIndex, r.error.binding)
  {
    var acc := dst;
    var todo := src.Keys;
    while todo != {}
      invariant todo <= src.Keys
      invariant acc == Combine(src - todo, dst)
      invariant !Conflicts(src - todo, dst)
      decreases todo
    {
      var s :| s in todo;
      CombineStep(src, dst, todo, s);
      if s in acc {
        assert s in dst && acc[s] == dst[s];
        var merged := MergeSetPair(s, src[s], acc[s]);
        if merged.Failure? {
          assert SlotConflict(src, dst, merged.error.setIndex, merged.error.binding);
          return Failure(merged.error);
        }
        acc := acc[s := merged.value];
      } else {
        acc := acc[s := src[s]];
      }
      NoConflictStep(src, dst, todo, s);
      todo := todo - {s};
    }
    assert src - todo == src;
    return Success(acc);
  }

  /** Handling set `s` of `src` in the pair merge: the accumulated merge of
      the sets done so far grows by the merge of set `s`. */
  lemma CombineStep(src: StageLayout, dst: StageLayout, todo: set<nat>, s: nat)
    requires s in todo && todo <= src.Keys
    ensures Combine(src - (todo - {s}), dst)
      == Combine(src - todo, dst)[s := if s in dst then src[s] + dst[s] else src[s]]
  {
  }

  /** Set `s` adds no conflict when its bindings agree with `dst`'s. */
  lemma NoConflictStep(src: StageLayout, dst: StageLayout, todo: set<nat>, s: nat)
    requires s in todo && todo <= src.Keys
    requires !Conflicts(src - todo, dst)
    requires s in dst ==> forall b | b in src[s] && b in dst[s] :: Compatible(src[s][b], dst[s][b])
    ensures !Conflicts(src - (todo - {s}), dst)
  {
    var done := src - todo;
    var next := src - (todo - {s});
    forall s', b | HasSlot(next, s', b) && HasSlot(dst, s', b)
      ensures Compatible(next[s'][b], dst[s'][b])
    {
      if s' != s {
        assert !SlotConflict(done, dst, s', b);
      }
    }
  }

  /** The reference left fold: the first stage verbatim, each later stage
      merged into the accumulated result. */
  function MergedStages(stages: seq<StageLayout>): StageLayout
    decreases |stages|
  {
    if |stages| == 0 then map[]
    else if |stages| == 1 then stages[0]
    else Combine(stages[|stages| - 1], MergedStages(stages[..|stages| - 1]))
  }

  /** Two stages of the list disagree about the type or name of a slot. */
  ghost predicate StagesConflict(stages: seq<StageLayout>) {
    exists i, j | 0 <= i < j < |stages| :: Conflicts(stages[j], stages[i])
  }

  /** The merged layout holds exactly the slots of the stages, and each slot's
      binding comes from one of them. */
  lemma {:induction false} MergedSlots(stages: seq<StageLayout>, s: nat, b: nat)
    ensures s in MergedStages(stages) <==> exists i | 0 <= i < |stages| :: s in stages[i]
    ensures HasSlot(MergedStages(stages), s, b) <==> exists i | 0 <= i < |stages| :: HasSlot(stages[i], s, b)
    ensures HasSlot(MergedStages(stages), s, b) ==>
      exists i | 0 <= i < |stages| :: HasSlot(stages[i], s, b) && MergedStages(stages)[s][b] == stages[i][s][b]
    decreases |stages|
  {
    if |stages| <= 1 {
    } else {
      var n := |stages| - 1;
      var prefix := stages[..n];
      MergedSlots(prefix, s, b);
      assert forall i | 0 <= i < n :: prefix[i] == stages[i];
    }
  }

  /** Each slot of the merged layout holds the binding of the first stage
      that declares it. */
  lemma {:induction false} MergedFirstWins(stages: seq<StageLayout>, i: nat, s: nat, b: nat)
    requires i < |stages| && HasSlot(stages[i], s, b)
    requires forall j | 0 <= j < i :: !HasSlot(stages[j], s, b)
    ensures HasSlot(MergedStages(stages), s, b)
    ensures MergedStages(stages)[s][b] == stages[i][s][b]
    decreases |stages|
  {
    if |stages| <= 1 {
    } else {
      var n := |stages| - 1;
      var prefix := stages[..n];
      if i < n {
        MergedFirstWins(prefix, i, s, b);
      } else {
        MergedSlots(prefix, s, b);
      }
    }
  }

  lemma StagesConflictPrefix(stages: seq<StageLayout>, n: nat)
    requires n <= |stages|
    ensures StagesConflict(stages[..n]) ==> StagesConflict(stages)
  {
  }

  /** Without a conflict among the stages, the merged binding of every slot
      agrees in type and name with what each stage declares there. */
  lemma {:induction false} MergedCompatible(stages: seq<StageLayout>, i: nat, s: nat, b: nat)
    requires !StagesConflict(stages)
    requires i < |stages| && HasSlot(stages[i], s, b)
    ensures HasSlot(MergedStages(stages), s, b)
    ensures Compatible(MergedStages(stages)[s][b], stages[i][s][b])
    decreases |stages|
  {
    MergedSlots(stages, s, b);
    var k :| 0 <= k < |stages| && HasSlot(stages[k], s, b) && MergedStages(stages)[s][b] == stages[k][s][b];
    if k != i {
      var lo, hi := if k < i then k else i, if k < i then i else k;
      assert !Conflicts(stages[hi], stages[lo]);
      assert !SlotConflict(stages[hi], stages[lo], s, b);
    }
  }

  /** One more stage conflicts with the merged layout of conflict-free stages
      exactly when it conflicts with one of those stages, at the same slot. */
  lemma StepConflict(stages: seq<StageLayout>, x: StageLayout)
    requires !StagesConflict(stages)
    ensures Conflicts(x, MergedStages(stages)) <==> exists i | 0 <= i < |stages| :: Conflicts(x, stages[i])
    ensures forall s, b | SlotConflict(x, MergedStages(stages), s, b) ::
      exists i | 0 <= i < |stages| :: SlotConflict(x, stages[i], s, b)
  {
    var m := MergedStages(stages);
    forall s, b | SlotConflict(x, m, s, b)
      ensures exists i | 0 <= i < |stages| :: SlotConflict(x, stages[i], s, b)
    {
      MergedSlots(stages, s, b);
      var k :| 0 <= k < |stages| && HasSlot(stages[k], s, b) && m[s][b] == stages[k][s][b];
      assert SlotConflict(x, stages[k], s, b);
    }
    if exists i | 0 <= i < |stages| :: Conflicts(x, stages[i]) {
      var i :| 0 <= i < |stages| && Conflicts(x, stages[i]);
      var s, b :| SlotConflict(x, stages[i], s, b);
      MergedCompatible(stages, i, s, b);
      assert SlotConflict(x, m, s, b);
    }
  }

  /** Appending a stage adds a conflict exactly when the new stage conflicts
      with an earlier one. */
  lemma AppendConflict(stages: seq<StageLayout>, x: StageLayout)
    ensures StagesConflict(stages + [x]) <==>
      StagesConflict(stages) || exists i | 0 <= i < |stages| :: Conflicts(x, stages[i])
  {
    var t := stages + [x];
    assert t[..|stages|] == stages;
    if StagesConflict(t) {
      var i, j :| 0 <= i < j < |t| && Conflicts(t[j], t[i]);
      if j < |stages| {
        assert Conflicts(stages[j], stages[i]);
      } else {
        assert Conflicts(x, stages[i]);
      }
    }
    if StagesConflict(stages) {
      var i, j :| 0 <= i < j < |stages| && Conflicts(stages[j], stages[i]);
      assert Conflicts(t[j], t[i]);
    }
    if exists i | 0 <= i < |stages| :: Conflicts(x, stages[i]) {
      var i :| 0 <= i < |stages| && Conflicts(x, stages[i]);
      assert Conflicts(t[|stages|], t[i]);
    }
  }

  /** `merge_shader_stage_layouts`: fold the stages left to right with
      `merge_shader_stage_layout_pair`, starting from the first stage (or the
      empty layout). It fails exactly when two stages disagree about the type
      or name in one slot. */
  method MergeShaderStageLayouts(stages: seq<StageLayout>) returns (r: Result<StageLayout, Conflict>)
    ensures r.Success? <==> !StagesConflict(stages)
    ensures r.Success? ==> r.value == MergedStages(stages)
    ensures r.Failure? ==> exists i, j | 0 <= i < j < |stages| ::
      SlotConflict(stages[j], stages[i], r.error.setIndex, r.error.binding)
  {
    if |stages| == 0 {
      return Success(map[]);
    }
    var acc := stages[0];
    var k := 1;
    assert stages[..1] == [stages[0]];
    while k < |stages|
      invariant 1 <= k <= |stages|
      invariant acc == MergedStages(stages[..k])
      invariant !StagesConflict(stages[..k])
    {
      var prefix := stages[..k];
      assert stages[..k + 1] == prefix + [stages[k]];
      assert stages[..k + 1][..k] == prefix;
      StepConflict(prefix, stages[k]);
      AppendConflict(prefix, stages[k]);
      var m := MergeShaderStageLayoutPair(stages[k], acc);
      if m.Failure? {
        var i :| 0 <= i < k && SlotConflict(stages[k], prefix[i], m.error.setIndex, m.error.binding);
        assert Conflicts(stages[k], stages[i]);
        StagesConflictPrefix(stages, k + 1);
        return Failure(m.error);
      }
      acc := m.value;
      k := k + 1;
    }
    assert stages[..k] == stages;
    return Success(acc);
  }

  /** Merging a list is merging its two parts and then merging the two
      results. */
  lemma {:induction false} MergedAppend(a: seq<StageLayout>, b: seq<StageLayout>)
    ensures MergedStages(a + b) == Combine(MergedStages(b), MergedStages(a))
    decreases |b|
  {
    if |b| == 0 {
      assert a + b == a;
      CombineEmpty(MergedStages(a));
    } else if |a| == 0 && |b| == 1 {
      assert a + b == b;
      CombineEmpty(b[0]);
    } else {
      var n := |b| - 1;
      var b', x := b[..n], b[n];
      assert (a + b)[..|a + b| - 1] == a + b';
      assert (a + b)[|a + b| - 1] == x;
      MergedAppend(a, b');
      CombineAssociative(x, MergedStages(b'), MergedStages(a));
      if n == 0 {
        CombineEmpty(MergedStages(a));
        CombineEmpty(x);
      }
    }
  }

  lemma MergedPair(x: StageLayout, y: StageLayout)
    ensures MergedStages([x, y]) == Combine(y, x)
  {
  }

  /** Grouping does not matter: merging the stages of `a + b` directly fails
      exactly when merging `a`, merging `b`, or merging those two results
      fails, and on success the layouts are the same. */
  lemma MergeGroupsEquivalent(a: seq<StageLayout>, b: seq<StageLayout>)
    ensures StagesConflict(a + b) <==>
      StagesConflict(a) || StagesConflict(b) || StagesConflict([MergedStages(a), MergedStages(b)])
    ensures MergedStages(a + b) == MergedStages([MergedStages(a), MergedStages(b)])
  {
    var ma, mb := MergedStages(a), MergedStages(b);
    MergedAppend(a, b);
    MergedPair(ma, mb);
    PairConflict(ma, mb);
    GroupConflictInWhole(a, b);
    WholeConflictInGroup(a, b);
  }

  lemma PairConflict(x: StageLayout, y: StageLayout)
    ensures StagesConflict([x, y]) <==> Conflicts(y, x)
  {
    if Conflicts(y, x) {
      assert Conflicts([x, y][1], [x, y][0]);
    }
  }

  lemma GroupConflictInWhole(a: seq<StageLayout>, b: seq<StageLayout>)
    ensures StagesConflict(a) || StagesConflict(b) || Conflicts(MergedStages(b), MergedStages(a))
      ==> StagesConflict(a + b)
  {
    var t := a + b;
    if StagesConflict(a) {
      var i, j :| 0 <= i < j < |a| && Conflicts(a[j], a[i]);
      assert Conflicts(t[j], t[i]);
    } else if StagesConflict(b) {
      var i, j :| 0 <= i < j < |b| && Conflicts(b[j], b[i]);
      assert Conflicts(t[|a| + j], t[|a| + i]);
    } else if Conflicts(MergedStages(b), MergedStages(a)) {
      var ma, mb := MergedStages(a), MergedStages(b);
      var s, k :| SlotConflict(mb, ma, s, k);
      MergedSlots(a, s, k);
      MergedSlots(b, s, k);
      var i :| 0 <= i < |a| && HasSlot(a[i], s, k) && ma[s][k] == a[i][s][k];
      var j :| 0 <= j < |b| && HasSlot(b[j], s, k) && mb[s][k] == b[j][s][k];
      assert SlotConflict(t[|a| + j], t[i], s, k);
      assert Conflicts(t[|a| + j], t[i]);
    }
  }

  lemma WholeConflictInGroup(a: seq<StageLayout>, b: seq<StageLayout>)
    ensures StagesConflict(a + b)
      ==> StagesConflict(a) || StagesConflict(b) || Conflicts(MergedStages(b), MergedStages(a))
  {
    var t := a + b;
    if StagesConflict(t) && !StagesConflict(a) && !StagesConflict(b) {
      var i, j :| 0 <= i < j < |t| && Conflicts(t[j], t[i]);
      if i < |a| <= j {
        var s, k :| SlotConflict(t[j], t[i], s, k);
        MergedCompatible(a, i, s, k);
        MergedCompatible(b, j - |a|, s, k);
        assert SlotConflict(MergedStages(b), MergedStages(a), s, k);
      }
    }
  }

  /** The stages of all groups, in order. */
  function Flatten(groups: seq<seq<StageLayout>>): (r: seq<StageLayout>)
    decreases |groups|
  {
    if |groups| == 0 then [] else Flatten(groups[..|groups| - 1]) + groups[|groups| - 1]
  }

  /** The merged layout of each group. */
  function GroupResults(groups: seq<seq<StageLayout>>): (r: seq<StageLayout>)
    ensures |r| == |groups|
    ensures forall i | 0 <= i < |groups| :: r[i] == MergedStages(groups[i])
  {
    seq(|groups|, i requires 0 <= i < |groups| => MergedStages(groups[i]))
  }

  ghost predicate SomeGroupConflicts(groups: seq<seq<StageLayout>>) {
    exists i | 0 <= i < |groups| :: StagesConflict(groups[i])
  }

  /** For any partition of the stages into consecutive groups, merging each
      group and then merging the group results fails in exactly the cases
      the direct merge fails, and yields the same layout. */
  lemma MergePartitionEquivalent(groups: seq<seq<StageLayout>>)
    ensures MergedStages(Flatten(groups)) == MergedStages(GroupResults(groups))
    ensures StagesConflict(Flatten(groups)) <==>
      SomeGroupConflicts(groups) || StagesConflict(GroupResults(groups))
  {
    MergePartitionSameLayout(groups);
    MergePartitionSameConflicts(groups);
  }

  lemma {:induction false} MergePartitionSameLayout(groups: seq<seq<StageLayout>>)
    ensures MergedStages(Flatten(groups)) == MergedStages(GroupResults(groups))
    decreases |groups|
  {
    if |groups| == 0 {
      assert GroupResults(groups) == [];
    } else {
      var n := |groups| - 1;
      var front, g := groups[..n], groups[n];
      var results := GroupResults(front);
      assert GroupResults(groups) == results + [MergedStages(g)];
      MergePartitionSameLayout(front);
      MergedAppend(Flatten(front), g);
      MergedAppend(results, [MergedStages(g)]);
    }
  }

  lemma SomeGroupConflictsAppend(groups: seq<seq<StageLayout>>)
    requires |groups| > 0
    ensures SomeGroupConflicts(groups) <==>
      SomeGroupConflicts(groups[..|groups| - 1]) || StagesConflict(groups[|groups| - 1])
  {
  }

  lemma {:induction false} MergePartitionSameConflicts(groups: seq<seq<StageLayout>>)
    ensures StagesConflict(Flatten(groups)) <==>
      SomeGroupConflicts(groups) || StagesConflict(GroupResults(groups))
    decreases |groups|
  {
    if |groups| == 0 {
      assert GroupResults(groups) == [];
    } else {
      var n := |groups| - 1;
      var front, g := groups[..n], groups[n];
      var flat, results := Flatten(front), GroupResults(front);
      assert GroupResults(groups) == results + [MergedStages(g)];
      MergePartitionSameConflicts(front);
      MergePartitionSameLayout(front);
      SomeGroupConflictsAppend(groups);
      MergeGroupsEquivalent(flat, g);
      PairConflict(MergedStages(flat), MergedStages(g));
      AppendConflict(results, MergedStages(g));
      if !StagesConflict(flat) {
        StepConflict(results, MergedStages(g));
      }
    }
  }

  /** Conflict is symmetric: it does not matter which stage came first. */
  lemma ConflictsSymmetric(x: StageLayout, y: StageLayout)
    ensures Conflicts(x, y) <==> Conflicts(y, x)
  {
    if Conflicts(x, y) {
      var s, b :| SlotConflict(x, y, s, b);
      assert SlotConflict(y, x, s, b);
    }
    if Conflicts(y, x) {
      var s, b :| SlotConflict(y, x, s, b);
      assert SlotConflict(x, y, s, b);
    }
  }

  lemma ConflictCarriesOver(a: seq<StageLayout>, b: seq<StageLayout>)
    requires multiset(a) == multiset(b)
    ensures StagesConflict(a) ==> StagesConflict(b)
  {
    if StagesConflict(a) {
      var i, j :| 0 <= i < j < |a| && Conflicts(a[j], a[i]);
      CombineSelf(a[i]);
      assert a[i] in multiset(b) && a[j] in multiset(b);
      var k :| 0 <= k < |b| && b[k] == a[i];
      var l :| 0 <= l < |b| && b[l] == a[j];
      ConflictsSymmetric(a[i], a[j]);
      if k < l {
        assert Conflicts(b[l], b[k]);
      } else {
        assert Conflicts(b[k], b[l]);
      }
    }
  }

  /** Conflict detection does not depend on the order of the stages: any
      reordering fails exactly when the original does. */
  lemma StagesConflictPermutation(a: seq<StageLayout>, b: seq<StageLayout>)
    requires multiset(a) == multiset(b)
    ensures StagesConflict(a) <==> StagesConflict(b)
  {
    ConflictCarriesOver(a, b);
    ConflictCarriesOver(b, a);
  }

  /** A single stage is returned verbatim, no stages give the empty layout,
      and a layout merged with itself is unchanged. */
  lemma MergedDegenerateCases(x: StageLayout)
    ensures MergedStages([]) == map[]
    ensures MergedStages([x]) == x
    ensures !StagesConflict([x, x]) && MergedStages([x, x]) == x
  {
    CombineSelf(x);
    assert [x, x][..1] == [x];
  }
}
