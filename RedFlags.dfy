/**
 * The red-flag list (src/components/medical/RedFlagAlert.tsx): the flags sorted by
 * severity, the critical banner, the badge of each severity, where the emergency button
 * appears, and the empty state.
 *
 * `[...redFlags].sort(cmp)` sorts a copy with a stable sort; here it is a stable insertion
 * sort on a value, proved equal to the independent description "the immediate flags, then
 * the urgent ones, then the rest, each group in input order".
 */
module RedFlags {
  import opened Medical
  import ListOps
  import Badge

  /** The comparator's table `{ immediate: 0, urgent: 1, soon: 2 }`. */
  function Rank(s: RedFlagSeverity): (r: nat)
    ensures r < 3
    ensures r == 0 <==> s == Immediate
    ensures r == 2 <==> s == Soon
  {
    match s
    case Immediate => 0
    case Urgent => 1
    case Soon => 2
  }

  /** Flags in non-decreasing rank. */
  predicate SortedBySeverity(s: seq<RedFlag>) {
    forall i, j :: 0 <= i < j < |s| ==> Rank(s[i].severity) <= Rank(s[j].severity)
  }

  /** Put `f` before the first flag of the sorted list that ranks no higher than it. */
  function Insert(f: RedFlag, sorted: seq<RedFlag>): (r: seq<RedFlag>)
    ensures |r| == |sorted| + 1
  {
    if sorted == [] || Rank(f.severity) <= Rank(sorted[0].severity) then [f] + sorted
    else [sorted[0]] + Insert(f, sorted[1..])
  }

  /** The sorted copy `sortedFlags`. */
  function SortFlags(flags: seq<RedFlag>): (r: seq<RedFlag>)
    ensures |r| == |flags|
  {
    if flags == [] then [] else Insert(flags[0], SortFlags(flags[1..]))
  }

  lemma {:induction false} InsertAdds(f: RedFlag, sorted: seq<RedFlag>)
    ensures multiset(Insert(f, sorted)) == multiset(sorted) + multiset{f}
  {
    if !(sorted == [] || Rank(f.severity) <= Rank(sorted[0].severity)) {
      InsertAdds(f, sorted[1..]);
      assert sorted == [sorted[0]] + sorted[1..];
    }
  }

  /** The sorted copy holds exactly the input flags. */
  lemma {:induction false} SortIsPermutation(flags: seq<RedFlag>)
    ensures multiset(SortFlags(flags)) == multiset(flags)
  {
    if flags != [] {
      SortIsPermutation(flags[1..]);
      InsertAdds(flags[0], SortFlags(flags[1..]));
      assert flags == [flags[0]] + flags[1..];
    }
  }

  /** The flags of one severity, in input order. */
  function OfSeverity(flags: seq<RedFlag>, s: RedFlagSeverity): seq<RedFlag> {
    ListOps.Filter(flags, (f: RedFlag) => f.severity == s)
  }

  lemma OfSeverityUnfold(flags: seq<RedFlag>, s: RedFlagSeverity)
    requires flags != []
    ensures OfSeverity(flags, s) ==
              if flags[0].severity == s then [flags[0]] + OfSeverity(flags[1..], s) else OfSeverity(flags[1..], s)
  {
  }

  /** Every flag of the list ranks `k`. */
  predicate AllRank(s: seq<RedFlag>, k: nat) {
    forall i :: 0 <= i < |s| ==> Rank(s[i].severity) == k
  }

  lemma OfSeverityRank(flags: seq<RedFlag>, s: RedFlagSeverity)
    ensures AllRank(OfSeverity(flags, s), Rank(s))
  {
    var r := OfSeverity(flags, s);
    forall i | 0 <= i < |r|
      ensures Rank(r[i].severity) == Rank(s)
    {
      assert r[i] in r;
    }
  }

  /** Inserting into a list that has exactly `a` ranking before `f` places `f` right after `a`. */
  lemma {:induction false} InsertAfterLower(f: RedFlag, a: seq<RedFlag>, b: seq<RedFlag>)
    requires forall i :: 0 <= i < |a| ==> Rank(a[i].severity) < Rank(f.severity)
    requires forall i :: 0 <= i < |b| ==> Rank(f.severity) <= Rank(b[i].severity)
    ensures Insert(f, a + b) == a + [f] + b
  {
    if a == [] {
      assert a + b == b;
      assert a + [f] + b == [f] + b;
    } else {
      InsertAfterLower(f, a[1..], b);
      assert a + b == [a[0]] + (a[1..] + b);
      InsertPastLower(f, a[0], a[1..] + b);
      assert a + [f] + b == [a[0]] + (a[1..] + [f] + b);
    }
  }

  /** A flag that ranks lower than `f` stays in front of it. */
  lemma InsertPastLower(f: RedFlag, x: RedFlag, rest: seq<RedFlag>)
    requires Rank(x.severity) < Rank(f.severity)
    ensures Insert(f, [x] + rest) == [x] + Insert(f, rest)
  {
    assert ([x] + rest)[1..] == rest;
  }


  /** The three severity groups, in order. */
  function Grouped(flags: seq<RedFlag>): seq<RedFlag> {
    OfSeverity(flags, Immediate) + OfSeverity(flags, Urgent) + OfSeverity(flags, Soon)
  }

  /** Regrouping a flag put in front of, between or after three groups. */
  lemma Regroup(f: RedFlag, a: seq<RedFlag>, b: seq<RedFlag>, c: seq<RedFlag>)
    ensures [f] + (a + b + c) == ([f] + a) + b + c
    ensures a + (b + c) == a + b + c
    ensures a + [f] + (b + c) == a + ([f] + b) + c
    ensures (a + b) + [f] + c == a + b + ([f] + c)
  {
  }

  /** Two groups joined rank at least as high as the lower of the two. */
  lemma RankAtLeast(a: seq<RedFlag>, ka: nat, b: seq<RedFlag>, kb: nat)
    requires AllRank(a, ka) && AllRank(b, kb)
    ensures forall i :: 0 <= i < |a + b| ==> (if ka < kb then ka else kb) <= Rank((a + b)[i].severity)
  {
    forall i | 0 <= i < |a + b|
      ensures (if ka < kb then ka else kb) <= Rank((a + b)[i].severity)
    {
      if i < |a| {
        assert (a + b)[i] == a[i];
      } else {
        assert (a + b)[i] == b[i - |a|];
      }
    }
  }

  /** One step of the sort, for each severity of the first flag: it joins its own group in front. */
  lemma SortStepImmediate(flags: seq<RedFlag>)
    requires flags != [] && flags[0].severity == Immediate && SortFlags(flags[1..]) == Grouped(flags[1..])
    ensures SortFlags(flags) == Grouped(flags)
  {
    var f, rest := flags[0], flags[1..];
    var i0, u0, s0 := OfSeverity(rest, Immediate), OfSeverity(rest, Urgent), OfSeverity(rest, Soon);
    assert SortFlags(flags) == Insert(f, i0 + u0 + s0);
    OfSeverityUnfold(flags, Immediate);
    OfSeverityUnfold(flags, Urgent);
    OfSeverityUnfold(flags, Soon);
    OfSeverityRank(rest, Immediate);
    OfSeverityRank(rest, Urgent);
    OfSeverityRank(rest, Soon);
    Regroup(f, i0, u0, s0);
    assert Insert(f, i0 + u0 + s0) == [f] + (i0 + u0 + s0);
  }

  lemma SortStepUrgent(flags: seq<RedFlag>)
    requires flags != [] && flags[0].severity == Urgent && SortFlags(flags[1..]) == Grouped(flags[1..])
    ensures SortFlags(flags) == Grouped(flags)
  {
    var f, rest := flags[0], flags[1..];
    var i0, u0, s0 := OfSeverity(rest, Immediate), OfSeverity(rest, Urgent), OfSeverity(rest, Soon);
    assert SortFlags(flags) == Insert(f, i0 + u0 + s0);
    OfSeverityUnfold(flags, Immediate);
    OfSeverityUnfold(flags, Urgent);
    OfSeverityUnfold(flags, Soon);
    OfSeverityRank(rest, Immediate);
    OfSeverityRank(rest, Urgent);
    OfSeverityRank(rest, Soon);
    Regroup(f, i0, u0, s0);
    RankAtLeast(u0, 1, s0, 2);
    InsertAfterLower(f, i0, u0 + s0);
  }

  lemma SortStepSoon(flags: seq<RedFlag>)
    requires flags != [] && flags[0].severity == Soon && SortFlags(flags[1..]) == Grouped(flags[1..])
    ensures SortFlags(flags) == Grouped(flags)
  {
    var f, rest := flags[0], flags[1..];
    var i0, u0, s0 := OfSeverity(rest, Immediate), OfSeverity(rest, Urgent), OfSeverity(rest, Soon);
    assert SortFlags(flags) == Insert(f, i0 + u0 + s0);
    OfSeverityUnfold(flags, Immediate);
    OfSeverityUnfold(flags, Urgent);
    OfSeverityUnfold(flags, Soon);
    OfSeverityRank(rest, Immediate);
    OfSeverityRank(rest, Urgent);
    OfSeverityRank(rest, Soon);
    Regroup(f, i0, u0, s0);
    RankAtLeast(i0, 0, u0, 1);
    InsertAfterLower(f, i0 + u0, s0);
  }

  /** The sort is the stable grouping: immediate, then urgent, then soon, each in input order. */
  lemma {:induction false} SortIsGrouping(flags: seq<RedFlag>)
    ensures SortFlags(flags) == Grouped(flags)
  {
    if flags != [] {
      SortIsGrouping(flags[1..]);
      match flags[0].severity
      case Immediate => SortStepImmediate(flags);
      case Urgent => SortStepUrgent(flags);
      case Soon => SortStepSoon(flags);
    }
  }

  /** The sorted copy is in severity order and holds exactly the input flags. */
  lemma SortFlagsSorted(flags: seq<RedFlag>)
    ensures SortedBySeverity(SortFlags(flags))
    ensures multiset(SortFlags(flags)) == multiset(flags)
  {
    SortIsPermutation(flags);
    SortIsGrouping(flags);
    var a, b, c := OfSeverity(flags, Immediate), OfSeverity(flags, Urgent), OfSeverity(flags, Soon);
    OfSeverityRank(flags, Immediate);
    OfSeverityRank(flags, Urgent);
    OfSeverityRank(flags, Soon);
    GroupsSorted(a, b, c);
  }

  /** Three runs of ranks 0, 1 and 2, one after another, are in non-decreasing rank. */
  lemma GroupsSorted(a: seq<RedFlag>, b: seq<RedFlag>, c: seq<RedFlag>)
    requires AllRank(a, 0) && AllRank(b, 1) && AllRank(c, 2)
    ensures SortedBySeverity(a + b + c)
  {
    var r := a + b + c;
    forall i | 0 <= i < |r|
      ensures Rank(r[i].severity) == if i < |a| then 0 else if i < |a| + |b| then 1 else 2
    {
      if i < |a| {
        assert r[i] == a[i];
      } else if i < |a| + |b| {
        assert r[i] == b[i - |a|];
      } else {
        assert r[i] == c[i - |a| - |b|];
      }
    }
  }

  /** Taking one severity from a group whose flags all rank `k` keeps it whole or empties it. */
  lemma OfSeverityOfGroup(g: seq<RedFlag>, k: nat, s: RedFlagSeverity)
    requires AllRank(g, k)
    ensures OfSeverity(g, s) == if Rank(s) == k then g else []
  {
    var p := (f: RedFlag) => f.severity == s;
    if Rank(s) == k {
      ListOps.FilterKeepsAll(g, p);
    } else {
      ListOps.FilterDropsAll(g, p);
    }
  }

  lemma OfSeverityConcat(a: seq<RedFlag>, b: seq<RedFlag>, s: RedFlagSeverity)
    ensures OfSeverity(a + b, s) == OfSeverity(a, s) + OfSeverity(b, s)
  {
    ListOps.FilterConcat(a, b, (f: RedFlag) => f.severity == s);
  }

  /** Stability: taking the flags of one severity from the sorted copy gives them in input order. */
  lemma SortIsStable(flags: seq<RedFlag>, s: RedFlagSeverity)
    ensures OfSeverity(SortFlags(flags), s) == OfSeverity(flags, s)
  {
    SortIsGrouping(flags);
    var a, b, c := OfSeverity(flags, Immediate), OfSeverity(flags, Urgent), OfSeverity(flags, Soon);
    OfSeverityRank(flags, Immediate);
    OfSeverityRank(flags, Urgent);
    OfSeverityRank(flags, Soon);
    OfSeverityConcat(a + b, c, s);
    OfSeverityConcat(a, b, s);
    assert OfSeverity(SortFlags(flags), s) == OfSeverity(a, s) + OfSeverity(b, s) + OfSeverity(c, s);
    OfSeverityOfGroup(a, 0, s);
    OfSeverityOfGroup(b, 1, s);
    OfSeverityOfGroup(c, 2, s);
    match s
    case Immediate => assert a + [] + [] == a;
    case Urgent => assert [] + b + [] == b;
    case Soon => assert [] + [] + c == c;
  }

  /** `hasImmediate`. */
  predicate HasImmediate(flags: seq<RedFlag>)
    ensures HasImmediate(flags) <==> OfSeverity(flags, Immediate) != []
  {
    var imm := OfSeverity(flags, Immediate);
    assert imm != [] ==> imm[0] in imm;

    exists i :: 0 <= i < |flags| && flags[i].severity == Immediate
  }

  /** The banner shows exactly when some input flag is immediate, and then that flag leads the list. */
  lemma BannerIff(flags: seq<RedFlag>)
    ensures HasImmediate(SortFlags(flags)) <==> HasImmediate(flags)
    ensures HasImmediate(flags) ==> SortFlags(flags)[0].severity == Immediate
  {
    SortFlagsSorted(flags);
    var r := SortFlags(flags);
    if HasImmediate(flags) {
      var i :| 0 <= i < |flags| && flags[i].severity == Immediate;
      assert flags[i] in multiset(r);
      var j :| 0 <= j < |r| && r[j] == flags[i];
      if j > 0 {
        assert Rank(r[0].severity) <= Rank(r[j].severity);
      }
    }
    if HasImmediate(r) {
      var j :| 0 <= j < |r| && r[j].severity == Immediate;
      assert r[j] in multiset(flags);
    }
  }

  /** What one alert card shows. */
  datatype AlertCard = AlertCard(flag: RedFlag, badge: Badge.Variant, pulses: bool, ambulanceIcon: bool, emergencyButton: bool)

  /** `severityConfig`'s badge: error, warning, info. */
  function SeverityBadge(s: RedFlagSeverity): (b: Badge.Variant)
    ensures b == Badge.ErrorBadge <==> s == Immediate
    ensures b == Badge.WarningBadge <==> s == Urgent
    ensures b == Badge.InfoBadge <==> s == Soon
  {
    match s
    case Immediate => Badge.ErrorBadge
    case Urgent => Badge.WarningBadge
    case Soon => Badge.InfoBadge
  }

  /** `RedFlagAlert`: only an immediate flag pulses, has the ambulance icon, and can show the button. */
  function Card(flag: RedFlag, hasAction: bool): (c: AlertCard)
    ensures c.flag == flag && c.badge == SeverityBadge(flag.severity)
    ensures c.pulses <==> flag.severity == Immediate
    ensures c.ambulanceIcon <==> flag.severity == Immediate
    ensures c.emergencyButton <==> hasAction && flag.severity == Immediate
  {
    AlertCard(flag, SeverityBadge(flag.severity), flag.severity == Immediate, flag.severity == Immediate,
              hasAction && flag.severity == Immediate)
  }

  /** What `RedFlagList` renders. */
  datatype ListView = ListView(banner: bool, cards: seq<AlertCard>, emptyState: bool)

  /** `RedFlagList`: the list passes its handler only to immediate flags. */
  function RedFlagList(flags: seq<RedFlag>, hasEmergencyAction: bool): (v: ListView)
    ensures |v.cards| == |flags|
    ensures forall i :: 0 <= i < |v.cards| ==> v.cards[i].flag == SortFlags(flags)[i]
    ensures forall i :: 0 <= i < |v.cards| ==>
              (v.cards[i].emergencyButton <==> hasEmergencyAction && v.cards[i].flag.severity == Immediate)
    ensures v.banner <==> HasImmediate(flags)
    ensures v.emptyState <==> flags == []
  {
    var sorted := SortFlags(flags);
    BannerIff(flags);
    var cards := seq(|sorted|, i requires 0 <= i < |sorted| =>
                   Card(sorted[i], sorted[i].severity == Immediate && hasEmergencyAction));
    assert forall i :: 0 <= i < |cards| ==> cards[i] == Card(sorted[i], sorted[i].severity == Immediate && hasEmergencyAction);
    ListView(HasImmediate(sorted),
             cards, |sorted| == 0)
  }

  /** The cards follow severity order, and with a handler there is one emergency button per immediate flag. */
  lemma ListCardsOrdered(flags: seq<RedFlag>, hasEmergencyAction: bool)
    ensures var v := RedFlagList(flags, hasEmergencyAction);
      forall i, j :: 0 <= i < j < |v.cards| ==> Rank(v.cards[i].flag.severity) <= Rank(v.cards[j].flag.severity)
  {
    SortFlagsSorted(flags);
  }
}
