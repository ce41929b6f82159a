/** The grouping of a bundle's entries: every number file is a unit of its own,
    and every build is one unit that holds its files, changelog first. */
module RehydrationUnits {
  import opened Options
  import opened Sorting
  import opened RehydrationApply
  import opened RehydrationEffects

  ghost predicate AllNamed(es: seq<Entry>) {
    forall e | e in es :: Named(e)
  }

  // --- Groups ---

  ghost predicate FiledUnder(es: seq<Entry>, s: Slot, name: string, e: Option<Entry>) {
    e.Some? ==> e.value in es && e.value.slot == s && e.value.name == name
  }

  ghost predicate GroupGood(es: seq<Entry>, s: Slot, g: Group) {
    && (g.xml.Some? || g.changelog.Some?)
    && FiledUnder(es, s, BUILD_FILE, g.xml) && FiledUnder(es, s, CHANGELOG_FILE, g.changelog)
    && exists e | e in es :: e.slot == s && e.jobPath == g.jobPath
  }

  ghost predicate Grouped(es: seq<Entry>, g: Grouping) {
    && Distinct(g.order) && (forall s :: s in g.order <==> s in g.groups)
    && (forall s | s in g.groups :: s.BuildOf? && GroupGood(es, s, g.groups[s]))
  }

  lemma GroupGrows(es: seq<Entry>, e: Entry, s: Slot, g: Group)
    requires GroupGood(es, s, g)
    ensures GroupGood(es + [e], s, g)
  {
    var f :| f in es && f.slot == s && f.jobPath == g.jobPath;
    assert f in es + [e];
  }

  lemma AddedGroup(es: seq<Entry>, g: Grouping, e: Entry)
    requires Grouped(es, g) && Named(e) && e.slot.BuildOf?
    ensures GroupGood(es + [e], e.slot, AddEntry(g, e).groups[e.slot])
  {
    assert e in es + [e];
    if e.slot in g.groups { GroupGrows(es, e, e.slot, g.groups[e.slot]); }
  }

  lemma AddGrouped(es: seq<Entry>, g: Grouping, e: Entry)
    requires Grouped(es, g) && Named(e)
    ensures Grouped(es + [e], AddEntry(g, e))
  {
    var h := AddEntry(g, e);
    if e.slot.BuildOf? { AddedGroup(es, g, e); }
    forall s | s in h.groups ensures s.BuildOf? && GroupGood(es + [e], s, h.groups[s]) {
      if s != e.slot || e.slot.NumberOf? { GroupGrows(es, e, s, g.groups[s]); }
    }
  }

  lemma {:induction false} GroupAllGrouped(es: seq<Entry>)
    requires AllNamed(es)
    ensures Grouped(es, GroupAll(es))
    decreases |es|
  {
    if es != [] {
      var last := |es| - 1;
      assert es == es[..last] + [es[last]];
      GroupAllGrouped(es[..last]);
      AddGrouped(es[..last], GroupAll(es[..last]), es[last]);
    }
  }

  // --- The last file of each name counts ---

  /** The last entry of a build that is its build.xml, or one that is not. */
  ghost predicate LastFiled(es: seq<Entry>, s: Slot, xml: bool, i: nat) {
    && i < |es| && es[i].slot == s && (es[i].name == "build.xml" <==> xml)
    && forall j | i < j < |es| :: !(es[j].slot == s && (es[j].name == "build.xml" <==> xml))
  }

  ghost predicate NoneFiled(es: seq<Entry>, s: Slot, xml: bool) {
    forall j | 0 <= j < |es| :: !(es[j].slot == s && (es[j].name == "build.xml" <==> xml))
  }

  function FiledOf(g: Group, xml: bool): Option<Entry> {
    if xml then g.xml else g.changelog
  }

  /** Whatever the bundle, a build's group holds the last build.xml and the last
      other file filed under it; a build without files has no group. */
  lemma {:induction false} GroupExactly(es: seq<Entry>, s: Slot, xml: bool)
    requires s.BuildOf?
    ensures var g := GroupAll(es).groups;
            && (s in g <==> exists e | e in es :: e.slot == s)
            && (forall i: nat | LastFiled(es, s, xml, i) :: s in g && FiledOf(g[s], xml) == Some(es[i]))
            && (NoneFiled(es, s, xml) && s in g ==> FiledOf(g[s], xml) == None)
    decreases |es|
  {
    if es != [] {
      var n := |es| - 1;
      var front := es[..n];
      assert es == front + [es[n]];
      GroupExactly(front, s, xml);
      forall i: nat | LastFiled(es, s, xml, i)
        ensures s in GroupAll(es).groups && FiledOf(GroupAll(es).groups[s], xml) == Some(es[i])
      {
        if i < n { assert LastFiled(front, s, xml, i); }
      }
      if NoneFiled(es, s, xml) { assert NoneFiled(front, s, xml); }
    }
  }

  // --- No entry is lost ---

  /** No two entries are written under the same name of the same slot. */
  ghost predicate Unique(es: seq<Entry>) {
    forall i, j | 0 <= i < j < |es| :: es[i].slot != es[j].slot || es[i].name != es[j].name
  }

  ghost predicate Complete(es: seq<Entry>, g: Grouping) {
    forall e | e in es && e.slot.BuildOf? :: e.slot in g.groups && e in GroupEntries(g.groups[e.slot])
  }

  lemma AddComplete(es: seq<Entry>, g: Grouping, e: Entry)
    requires Complete(es, g) && AllNamed(es) && Named(e) && Grouped(es, g)
    requires forall f | f in es :: f.slot != e.slot || f.name != e.name
    ensures Complete(es + [e], AddEntry(g, e))
  {
    var h := AddEntry(g, e);
    forall f | f in es + [e] && f.slot.BuildOf? ensures f.slot in h.groups && f in GroupEntries(h.groups[f.slot]) {
      if f in es && f.slot == e.slot { assert Named(f); }
    }
  }

  lemma {:induction false} GroupAllComplete(es: seq<Entry>)
    requires AllNamed(es) && Unique(es)
    ensures Complete(es, GroupAll(es))
    decreases |es|
  {
    if es != [] {
      var last := |es| - 1;
      assert es == es[..last] + [es[last]];
      GroupAllComplete(es[..last]);
      GroupAllGrouped(es[..last]);
      AddComplete(es[..last], GroupAll(es[..last]), es[last]);
    }
  }

  // --- The units, one by one ---

  function BuildUnit(s: Slot, g: Group): Unit {
    Unit(s, g.jobPath, GroupEntries(g))
  }

  function NumberUnit(e: Entry): Unit {
    Unit(e.slot, e.jobPath, [e])
  }

  lemma {:induction false} BuildUnitsAt(order: seq<Slot>, groups: map<Slot, Group>)
    requires forall s | s in order :: s in groups
    ensures |BuildUnits(order, groups)| == |order|
    ensures forall i | 0 <= i < |order| :: BuildUnits(order, groups)[i] == BuildUnit(order[i], groups[order[i]])
    decreases |order|
  {
    if order != [] {
      BuildUnitsAt(order[..|order| - 1], groups);
    }
  }

  lemma {:induction false} NumberUnitsAre(es: seq<Entry>)
    ensures forall u :: u in NumberUnits(es) <==> exists e | e in es :: e.slot.NumberOf? && u == NumberUnit(e)
    decreases |es|
  {
    if es != [] {
      var last := |es| - 1;
      assert es == es[..last] + [es[last]];
      NumberUnitsAre(es[..last]);
    }
  }

  ghost predicate DistinctSlots(us: seq<Unit>) {
    forall i, j | 0 <= i < j < |us| :: us[i].slot != us[j].slot
  }

  lemma NumberApart(es: seq<Entry>, e: Entry, u: Unit)
    requires AllNamed(es + [e]) && Unique(es + [e]) && e.slot.NumberOf? && u in NumberUnits(es)
    ensures u.slot != e.slot
  {
    NumberUnitsAre(es);
    var f :| f in es && f.slot.NumberOf? && u == NumberUnit(f);
    var all := es + [e];
    var i :| 0 <= i < |es| && es[i] == f;
    assert all[i] == f && all[|es|] == e && Named(all[i]) && Named(all[|es|]);
  }

  lemma {:induction false} NumbersDistinct(es: seq<Entry>)
    requires AllNamed(es) && Unique(es)
    ensures DistinctSlots(NumberUnits(es))
    decreases |es|
  {
    if es != [] {
      var front, e := es[..|es| - 1], es[|es| - 1];
      assert es == front + [e];
      NumbersDistinct(front);
      var us := NumberUnits(front);
      forall i | 0 <= i < |us| && e.slot.NumberOf? ensures us[i].slot != e.slot { NumberApart(front, e, us[i]); }
    }
  }

  ghost predicate Shaped(u: Unit) {
    forall e | e in u.entries :: e.slot == u.slot && Named(e)
  }

  /** Every entry of a unit belongs to the unit's own slot. */
  lemma UnitsShaped(es: seq<Entry>)
    requires AllNamed(es)
    ensures forall u | u in Units(es) :: Shaped(u)
  {
    var g := GroupAll(es);
    GroupAllGrouped(es);
    BuildUnitsAt(g.order, g.groups);
    NumberUnitsAre(es);
    forall u | u in Units(es) ensures Shaped(u) {
      if u in BuildUnits(g.order, g.groups) {
        var i :| 0 <= i < |g.order| && BuildUnits(g.order, g.groups)[i] == u;
        assert g.order[i] in g.order;
      }
    }
  }

  // --- Units of a bundle without clashes ---

  /** Entries of the same job report the same job path. */
  ghost predicate SameJobPath(es: seq<Entry>) {
    forall e, f | e in es && f in es && e.slot.job == f.slot.job :: e.jobPath == f.jobPath
  }

  ghost predicate CleanList(es: seq<Entry>) {
    Unique(es) && SameJobPath(es) && forall e | e in es :: Named(e)
  }

  ghost predicate InUnits(us: seq<Unit>, e: Entry) {
    exists i | 0 <= i < |us| :: e in us[i].entries
  }

  lemma BuildUnitGood(es: seq<Entry>, s: Slot, g: Group)
    requires CleanList(es) && GroupGood(es, s, g) && s.BuildOf?
    ensures GoodUnit(BuildUnit(s, g))
  {
    var f :| f in es && f.slot == s && f.jobPath == g.jobPath;
    forall e | e in GroupEntries(g) ensures Named(e) && e.slot == s && e.jobPath == g.jobPath {
    }
  }

  ghost predicate UnitsOf(g: Grouping, us: seq<Unit>) {
    && |us| == |g.order|
    && forall i | 0 <= i < |us| :: g.order[i] in g.groups && us[i] == BuildUnit(g.order[i], g.groups[g.order[i]])
  }

  lemma GroupUnitsGood(es: seq<Entry>, g: Grouping, us: seq<Unit>)
    requires CleanList(es) && Grouped(es, g) && UnitsOf(g, us)
    ensures DistinctSlots(us) && forall i | 0 <= i < |us| :: us[i].slot.BuildOf? && GoodUnit(us[i])
  {
    forall i | 0 <= i < |us| ensures us[i].slot.BuildOf? && GoodUnit(us[i]) {
      BuildUnitGood(es, g.order[i], g.groups[g.order[i]]);
    }
  }

  lemma GroupAllUnits(es: seq<Entry>, g: Grouping)
    requires CleanList(es) && g == GroupAll(es)
    ensures Grouped(es, g) && Complete(es, g) && UnitsOf(g, BuildUnits(g.order, g.groups))
  {
    GroupAllGrouped(es);
    GroupAllComplete(es);
    assert Grouped(es, g);
    BuildUnitsAt(g.order, g.groups);
    forall i | 0 <= i < |g.order| ensures g.order[i] in g.groups {
      assert g.order[i] in g.order;
    }
  }

  /** The units are good, of one kind, each slot once, and hold exactly the
      entries of that kind. */
  ghost predicate Covers(es: seq<Entry>, us: seq<Unit>, numbers: bool) {
    && DistinctSlots(us)
    && (forall i | 0 <= i < |us| :: us[i].slot.NumberOf? == numbers && GoodUnit(us[i]))
    && (forall e :: InUnits(us, e) <==> e in es && e.slot.NumberOf? == numbers)
  }

  lemma BuildsCover(es: seq<Entry>, g: Grouping, us: seq<Unit>)
    requires CleanList(es) && Grouped(es, g) && Complete(es, g) && UnitsOf(g, us)
    ensures Covers(es, us, false)
  {
    GroupUnitsGood(es, g, us);
    forall e ensures InUnits(us, e) <==> e in es && e.slot.BuildOf? { BuildsHold(es, g, us, e); }
  }

  lemma BuildsHold(es: seq<Entry>, g: Grouping, us: seq<Unit>, e: Entry)
    requires Grouped(es, g) && Complete(es, g) && UnitsOf(g, us)
    ensures InUnits(us, e) <==> e in es && e.slot.BuildOf?
  {
    if i :| 0 <= i < |us| && e in us[i].entries {
      assert GroupGood(es, g.order[i], g.groups[g.order[i]]);
    }
    if e in es && e.slot.BuildOf? {
      var i :| 0 <= i < |g.order| && g.order[i] == e.slot;
      assert e in us[i].entries;
    }
  }

  lemma NumbersCover(es: seq<Entry>)
    requires CleanList(es)
    ensures Covers(es, NumberUnits(es), true)
  {
    var us := NumberUnits(es);
    NumberUnitsAre(es);
    NumbersDistinct(es);
    forall i | 0 <= i < |us| ensures us[i].slot.NumberOf? && GoodUnit(us[i]) {
      assert us[i] in us;
    }
    forall e ensures InUnits(us, e) <==> e in es && e.slot.NumberOf? {
      if i :| 0 <= i < |us| && e in us[i].entries {
        assert us[i] in us;
      }
      if e in es && e.slot.NumberOf? {
        assert NumberUnit(e) in us && e in NumberUnit(e).entries;
      }
    }
  }

  lemma CoversBoth(es: seq<Entry>, us: seq<Unit>, vs: seq<Unit>)
    requires Covers(es, us, true) && Covers(es, vs, false)
    ensures DistinctSlots(us + vs) && forall i | 0 <= i < |us + vs| :: GoodUnit((us + vs)[i])
    ensures forall e :: InUnits(us + vs, e) <==> e in es
  {
    forall e ensures InUnits(us + vs, e) <==> e in es { InUnitsConcat(us, vs, e); }
  }

  /** The units hold exactly the entries, each slot once. */
  lemma UnitsGood(es: seq<Entry>)
    requires CleanList(es)
    ensures DistinctSlots(Units(es)) && forall i | 0 <= i < |Units(es)| :: GoodUnit(Units(es)[i])
    ensures forall e :: InUnits(Units(es), e) <==> e in es
  {
    var g := GroupAll(es);
    var numbers, builds := NumberUnits(es), BuildUnits(g.order, g.groups);
    assert Covers(es, numbers, true) by { NumbersCover(es); }
    assert Covers(es, builds, false) by {
      GroupAllUnits(es, g);
      BuildsCover(es, g, builds);
    }
    CoversBoth(es, numbers, builds);
  }

  lemma InUnitsConcat(us: seq<Unit>, vs: seq<Unit>, e: Entry)
    ensures InUnits(us + vs, e) <==> InUnits(us, e) || InUnits(vs, e)
  {
    if i :| 0 <= i < |vs| && e in vs[i].entries {
      assert (us + vs)[|us| + i] == vs[i];
    }
    if i :| 0 <= i < |us| && e in us[i].entries {
      assert (us + vs)[i] == us[i];
    }
  }
}
