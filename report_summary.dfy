/**
 * The claims-and-evidence summary the report step hands to the language
 * model: claims grouped by type in order of first appearance, then one
 * "Claim Type:" line per group and "Claim:", "Context:" and (when the group
 * has one) "Supporting Evidence:" lines per claim. Lines cited are in
 * src/pipeline_steps/step5_report_generator.py.
 */
module ReportSummary {
  import opened Text
  import opened Seqs

  /** A claim as the report step reads it: (type, text, explanation). */
  type Claim = (string, string, string)

  /** What a group holds per claim: (text, explanation). */
  type Entry = (string, string)

  // ---------------------------------------------------------------------
  // Grouping by type (lines 96-101)

  /** The claim types, in claim order. */
  function Types(claims: seq<Claim>): (ts: seq<string>)
    ensures |ts| == |claims|
  {
    if claims == [] then [] else Types(claims[..|claims| - 1]) + [claims[|claims| - 1].0]
  }

  /** The (text, explanation) pairs of the claims of type `t`, in claim order. */
  function GroupOf(claims: seq<Claim>, t: string): seq<Entry> {
    if claims == [] then []
    else
      var c := claims[|claims| - 1];
      GroupOf(claims[..|claims| - 1], t) + (if c.0 == t then [(c.1, c.2)] else [])
  }

  /** The group keys: the distinct types in order of first appearance, as the dict keeps them. */
  function Keys(claims: seq<Claim>): seq<string> {
    Dedup(Types(claims))
  }

  /**
   * The grouping loop: a dict from type to its claims' pairs, with its keys
   * in insertion order.
   */
  method GroupClaimsByType(claims: seq<Claim>) returns (keys: seq<string>, groups: map<string, seq<Entry>>)
    ensures keys == Keys(claims)
    ensures forall t :: t in groups <==> t in keys
    ensures forall t :: t in groups ==> groups[t] == GroupOf(claims, t)
  {
    keys := [];
    groups := map[];
    for i := 0 to |claims|
      invariant keys == Keys(claims[..i])
      invariant forall t :: t in groups <==> t in keys
      invariant forall t :: t in groups ==> groups[t] == GroupOf(claims[..i], t)
    {
      var (claimType, claimText, explanation) := claims[i];
      assert claims[..i + 1][..i] == claims[..i];
      assert Types(claims[..i + 1]) == Types(claims[..i]) + [claimType];
      DedupSpec(Types(claims[..i]));
      if claimType !in groups {
        groups := groups[claimType := []];
        keys := keys + [claimType];
        assert GroupOf(claims[..i], claimType) == [] by {
          GroupOfAbsent(claims[..i], claimType);
        }
      }
      groups := groups[claimType := groups[claimType] + [(claimText, explanation)]];
    }
    assert claims[..|claims|] == claims;
  }

  /** A type no claim has has an empty group. */
  lemma {:induction false} GroupOfAbsent(claims: seq<Claim>, t: string)
    requires t !in Types(claims)
    ensures GroupOf(claims, t) == []
  {
    if claims != [] {
      var init := claims[..|claims| - 1];
      assert Types(claims) == Types(init) + [claims[|claims| - 1].0];
      GroupOfAbsent(init, t);
    }
  }

  /** A group holds as many pairs as there are claims of its type. */
  lemma {:induction false} GroupSize(claims: seq<Claim>, t: string)
    ensures |GroupOf(claims, t)| == Count(Types(claims), t)
  {
    if claims != [] {
      var init := claims[..|claims| - 1];
      GroupSize(init, t);
      assert Types(claims)[..|claims| - 1] == Types(init);
    }
  }

  /** The number of occurrences in `ts` of each key, summed over the keys. */
  function CountSum(keys: seq<string>, ts: seq<string>): nat {
    if keys == [] then 0 else CountSum(keys[..|keys| - 1], ts) + Count(ts, keys[|keys| - 1])
  }

  lemma {:induction false} CountSumAppend(keys: seq<string>, ts: seq<string>, x: string)
    ensures CountSum(keys, ts + [x]) == CountSum(keys, ts) + Count(keys, x)
  {
    if keys != [] {
      CountSumAppend(keys[..|keys| - 1], ts, x);
      CountAppend(ts, [x], keys[|keys| - 1]);
    }
  }

  /** Summed over the distinct types, the occurrence counts add up to the length. */
  lemma {:induction false} DedupCountSum(ts: seq<string>)
    ensures CountSum(Dedup(ts), ts) == |ts|
  {
    if ts != [] {
      var init := ts[..|ts| - 1];
      var x := ts[|ts| - 1];
      var d := Dedup(init);
      assert ts == init + [x];
      DedupCountSum(init);
      DedupSpec(init);
      CountSumAppend(d, init, x);
      CountNoDup(d, x);
      if x !in d {
        var d' := d + [x];
        assert d'[..|d'| - 1] == d;
        CountAppend(init, [x], x);
      }
    }
  }

  /** The sizes of the groups of `keys`, summed. */
  function GroupSizes(keys: seq<string>, claims: seq<Claim>): nat {
    if keys == [] then 0 else GroupSizes(keys[..|keys| - 1], claims) + |GroupOf(claims, keys[|keys| - 1])|
  }

  lemma {:induction false} GroupSizesAreCounts(keys: seq<string>, claims: seq<Claim>)
    ensures GroupSizes(keys, claims) == CountSum(keys, Types(claims))
  {
    if keys != [] {
      GroupSizesAreCounts(keys[..|keys| - 1], claims);
      GroupSize(claims, keys[|keys| - 1]);
    }
  }

  /** Grouping loses no claim and duplicates none: the groups hold every claim once. */
  lemma GroupingKeepsEveryClaim(claims: seq<Claim>)
    ensures GroupSizes(Keys(claims), claims) == |claims|
  {
    GroupSizesAreCounts(Keys(claims), claims);
    DedupCountSum(Types(claims));
  }

  // ---------------------------------------------------------------------
  // The summary lines (lines 103-111)

  const TypeLead := "\nClaim Type: "
  const ClaimLead := "\nClaim: "
  const ContextLead := "Context: "
  const SupportLead := "Supporting Evidence: "

  /** The lines of one group's claims; `support` is the group's evidence, if it has one. */
  function ClaimLines(group: seq<Entry>, support: seq<string>): seq<string>
    requires |support| <= 1
  {
    if group == [] then []
    else
      var e := group[|group| - 1];
      ClaimLines(group[..|group| - 1], support) + ClaimTail(e, support)
  }

  /** The lines of one claim: its text, its explanation, and its group's evidence if any. */
  function ClaimTail(e: Entry, support: seq<string>): seq<string>
    requires |support| <= 1
  {
    [ClaimLead + e.0, ContextLead + e.1] + (if support == [] then [] else [SupportLead + support[0]])
  }

  /** The evidence of group `i`: `evidence_list[i]` when there is one. */
  function SupportOf(evidence: seq<string>, i: nat): (s: seq<string>)
    ensures |s| <= 1
  {
    if i < |evidence| then [evidence[i]] else []
  }

  /** The lines of the first `n` groups. */
  function SummaryLines(keys: seq<string>, groups: map<string, seq<Entry>>, evidence: seq<string>, n: nat): seq<string>
    requires n <= |keys| && forall t :: t in keys ==> t in groups
  {
    if n == 0 then [] else SummaryLines(keys, groups, evidence, n - 1) + GroupLines(keys, groups, evidence, n - 1)
  }

  /** The lines of group `i`: its "Claim Type:" line, then its claims' lines. */
  function GroupLines(keys: seq<string>, groups: map<string, seq<Entry>>, evidence: seq<string>, i: nat): seq<string>
    requires i < |keys| && forall t :: t in keys ==> t in groups
  {
    [TypeLead + keys[i]] + ClaimLines(groups[keys[i]], SupportOf(evidence, i))
  }

  /** The summary of every group. */
  function Summary(keys: seq<string>, groups: map<string, seq<Entry>>, evidence: seq<string>): seq<string>
    requires forall t :: t in keys ==> t in groups
  {
    SummaryLines(keys, groups, evidence, |keys|)
  }

  /** The `evidence_summary` loop, over the grouping's keys in order. */
  method BuildEvidenceSummary(keys: seq<string>, groups: map<string, seq<Entry>>, evidence: seq<string>)
    returns (summary: seq<string>)
    requires forall t :: t in keys ==> t in groups
    ensures summary == Summary(keys, groups, evidence)
  {
    summary := [];
    for i := 0 to |keys|
      invariant summary == SummaryLines(keys, groups, evidence, i)
    {
      ghost var before := summary;
      summary := summary + [TypeLead + keys[i]];
      summary := AppendClaimLines(summary, groups[keys[i]], evidence, i);
      AppendAssoc(before, [TypeLead + keys[i]], ClaimLines(groups[keys[i]], SupportOf(evidence, i)));
    }
  }

  /** The inner loop of `evidence_summary`: the lines of each claim of group `i`. */
  method AppendClaimLines(summary: seq<string>, group: seq<Entry>, evidence: seq<string>, i: nat)
    returns (out: seq<string>)
    ensures out == summary + ClaimLines(group, SupportOf(evidence, i))
  {
    out := summary;
    for j := 0 to |group|
      invariant out == summary + ClaimLines(group[..j], SupportOf(evidence, i))
    {
      assert group[..j + 1][..j] == group[..j];
      ghost var prev := out;
      out := out + [ClaimLead + group[j].0];
      out := out + [ContextLead + group[j].1];
      if i < |evidence| {
        out := out + [SupportLead + evidence[i]];
      }
      assert out == prev + ClaimTail(group[j], SupportOf(evidence, i));
      AppendAssoc(summary, ClaimLines(group[..j], SupportOf(evidence, i)), ClaimTail(group[j], SupportOf(evidence, i)));
    }
    assert group[..|group|] == group;
  }

  /** Grouping then summarising, as lines 96-111 do for the claims and the evidence list. */
  method SummarizeClaims(claims: seq<Claim>, evidence: seq<string>) returns (summary: seq<string>)
    ensures exists groups: map<string, seq<Entry>> ::
              (forall t :: t in Keys(claims) ==> t in groups && groups[t] == GroupOf(claims, t)) &&
              summary == Summary(Keys(claims), groups, evidence)
  {
    var keys, groups := GroupClaimsByType(claims);
    summary := BuildEvidenceSummary(keys, groups, evidence);
  }

  // ---------------------------------------------------------------------
  // Counting the lines of each kind

  /** The number of lines that start with `p`. */
  function CountLed(lines: seq<string>, p: string): nat {
    if lines == [] then 0
    else CountLed(lines[..|lines| - 1], p) + (if StartsWith(lines[|lines| - 1], p) then 1 else 0)
  }

  lemma {:induction false} CountLedAppend(a: seq<string>, b: seq<string>, p: string)
    ensures CountLed(a + b, p) == CountLed(a, p) + CountLed(b, p)
    decreases |b|
  {
    if b == [] {
      assert a + b == a;
    } else {
      assert (a + b)[..|a + b| - 1] == a + b[..|b| - 1];
      CountLedAppend(a, b[..|b| - 1], p);
    }
  }

  lemma LeadStarts(p: string, v: string)
    ensures StartsWith(p + v, p)
  {
    assert (p + v)[..|p|] == p;
  }

  /** A line led by `q` is not led by `p` when the two differ at an index both reach. */
  lemma LeadExcludes(line: string, q: string, p: string, i: nat)
    requires StartsWith(line, q) && i < |q| && i < |p| && q[i] != p[i]
    ensures !StartsWith(line, p)
  {
    assert line[i] == line[..|q|][i];
  }

  /** Which of the four leads each kind of line starts with. */
  lemma Leads(v: string)
    ensures StartsWith(TypeLead + v, TypeLead) && !StartsWith(TypeLead + v, ClaimLead)
    ensures !StartsWith(TypeLead + v, ContextLead) && !StartsWith(TypeLead + v, SupportLead)
    ensures StartsWith(ClaimLead + v, ClaimLead) && !StartsWith(ClaimLead + v, TypeLead)
    ensures !StartsWith(ClaimLead + v, ContextLead) && !StartsWith(ClaimLead + v, SupportLead)
    ensures StartsWith(ContextLead + v, ContextLead) && !StartsWith(ContextLead + v, TypeLead)
    ensures !StartsWith(ContextLead + v, ClaimLead) && !StartsWith(ContextLead + v, SupportLead)
    ensures StartsWith(SupportLead + v, SupportLead) && !StartsWith(SupportLead + v, TypeLead)
    ensures !StartsWith(SupportLead + v, ClaimLead) && !StartsWith(SupportLead + v, ContextLead)
  {
    LeadStarts(TypeLead, v);
    LeadStarts(ClaimLead, v);
    LeadStarts(ContextLead, v);
    LeadStarts(SupportLead, v);
    LeadExcludes(TypeLead + v, TypeLead, ClaimLead, 6);
    LeadExcludes(TypeLead + v, TypeLead, ContextLead, 0);
    LeadExcludes(TypeLead + v, TypeLead, SupportLead, 0);
    LeadExcludes(ClaimLead + v, ClaimLead, TypeLead, 6);
    LeadExcludes(ClaimLead + v, ClaimLead, ContextLead, 0);
    LeadExcludes(ClaimLead + v, ClaimLead, SupportLead, 0);
    LeadExcludes(ContextLead + v, ContextLead, TypeLead, 0);
    LeadExcludes(ContextLead + v, ContextLead, ClaimLead, 0);
    LeadExcludes(ContextLead + v, ContextLead, SupportLead, 0);
    LeadExcludes(SupportLead + v, SupportLead, TypeLead, 0);
    LeadExcludes(SupportLead + v, SupportLead, ClaimLead, 0);
    LeadExcludes(SupportLead + v, SupportLead, ContextLead, 0);
  }

  lemma CountLedOne(x: string, p: string)
    ensures CountLed([x], p) == if StartsWith(x, p) then 1 else 0
  {
    assert [x][..0] == [];
  }

  /** The lines one claim contributes: one "Claim:", one "Context:", and its group's evidence line if any. */
  lemma ClaimTailCounts(e: Entry, support: seq<string>)
    requires |support| <= 1
    ensures var tail := ClaimTail(e, support);
      CountLed(tail, TypeLead) == 0 && CountLed(tail, ClaimLead) == 1 &&
      CountLed(tail, ContextLead) == 1 && CountLed(tail, SupportLead) == |support|
  {
    var x := [ClaimLead + e.0];
    var y := [ContextLead + e.1];
    var z := if support == [] then [] else [SupportLead + support[0]];
    assert [ClaimLead + e.0, ContextLead + e.1] + z == x + y + z;
    Leads(e.0);
    Leads(e.1);
    CountLedOne(ClaimLead + e.0, TypeLead);
    CountLedOne(ClaimLead + e.0, ClaimLead);
    CountLedOne(ClaimLead + e.0, ContextLead);
    CountLedOne(ClaimLead + e.0, SupportLead);
    CountLedOne(ContextLead + e.1, TypeLead);
    CountLedOne(ContextLead + e.1, ClaimLead);
    CountLedOne(ContextLead + e.1, ContextLead);
    CountLedOne(ContextLead + e.1, SupportLead);
    if support != [] {
      Leads(support[0]);
      CountLedOne(SupportLead + support[0], TypeLead);
      CountLedOne(SupportLead + support[0], ClaimLead);
      CountLedOne(SupportLead + support[0], ContextLead);
      CountLedOne(SupportLead + support[0], SupportLead);
    }
    CountLedAppend(x, y, TypeLead);
    CountLedAppend(x, y, ClaimLead);
    CountLedAppend(x, y, ContextLead);
    CountLedAppend(x, y, SupportLead);
    CountLedAppend(x + y, z, TypeLead);
    CountLedAppend(x + y, z, ClaimLead);
    CountLedAppend(x + y, z, ContextLead);
    CountLedAppend(x + y, z, SupportLead);
  }

  /** A group's lines: one "Claim:" and one "Context:" line per claim, and the evidence line after each claim. */
  lemma {:induction false} ClaimLinesCounts(group: seq<Entry>, support: seq<string>)
    requires |support| <= 1
    ensures CountLed(ClaimLines(group, support), TypeLead) == 0
    ensures CountLed(ClaimLines(group, support), ClaimLead) == |group|
    ensures CountLed(ClaimLines(group, support), ContextLead) == |group|
    ensures CountLed(ClaimLines(group, support), SupportLead) == if support == [] then 0 else |group|
  {
    if group != [] {
      var init := group[..|group| - 1];
      var e := group[|group| - 1];
      ClaimLinesCounts(init, support);
      var tail := ClaimTail(e, support);
      ClaimTailCounts(e, support);
      CountLedAppend(ClaimLines(init, support), tail, TypeLead);
      CountLedAppend(ClaimLines(init, support), tail, ClaimLead);
      CountLedAppend(ClaimLines(init, support), tail, ContextLead);
      CountLedAppend(ClaimLines(init, support), tail, SupportLead);
    }
  }

  /** The sizes of the first `n` groups, and of those among them that have evidence. */
  function SizeOfFirst(keys: seq<string>, groups: map<string, seq<Entry>>, n: nat): nat
    requires n <= |keys| && forall t :: t in keys ==> t in groups
  {
    if n == 0 then 0 else SizeOfFirst(keys, groups, n - 1) + |groups[keys[n - 1]]|
  }

  function SupportedOfFirst(keys: seq<string>, groups: map<string, seq<Entry>>, evidence: seq<string>, n: nat): nat
    requires n <= |keys| && forall t :: t in keys ==> t in groups
  {
    if n == 0 then 0
    else SupportedOfFirst(keys, groups, evidence, n - 1) + (if n - 1 < |evidence| then |groups[keys[n - 1]]| else 0)
  }

  /**
   * One "Claim Type:" line per group, one "Claim:" and one "Context:" line
   * per claim, and one "Supporting Evidence:" line per claim of a group
   * whose index has an evidence entry.
   */
  lemma SummaryCounts(keys: seq<string>, groups: map<string, seq<Entry>>, evidence: seq<string>, n: nat)
    requires n <= |keys| && forall t :: t in keys ==> t in groups
    ensures CountLed(SummaryLines(keys, groups, evidence, n), TypeLead) == n
    ensures CountLed(SummaryLines(keys, groups, evidence, n), ClaimLead) == SizeOfFirst(keys, groups, n)
    ensures CountLed(SummaryLines(keys, groups, evidence, n), ContextLead) == SizeOfFirst(keys, groups, n)
    ensures CountLed(SummaryLines(keys, groups, evidence, n), SupportLead) == SupportedOfFirst(keys, groups, evidence, n)
  {
    TypeLinesCount(keys, groups, evidence, n);
    ClaimLinesCount(keys, groups, evidence, n, ClaimLead);
    ClaimLinesCount(keys, groups, evidence, n, ContextLead);
    SupportLinesCount(keys, groups, evidence, n);
  }

  lemma TypeLinesCount(keys: seq<string>, groups: map<string, seq<Entry>>, evidence: seq<string>, n: nat)
    requires n <= |keys| && forall t :: t in keys ==> t in groups
    ensures CountLed(SummaryLines(keys, groups, evidence, n), TypeLead) == n
  {
    var ones := seq(n, i => 1);
    forall i | 0 <= i < n
      ensures CountLed(GroupLines(keys, groups, evidence, i), TypeLead) == ones[i]
    {
      GroupCounts(keys, groups, evidence, i);
    }
    SummaryLed(keys, groups, evidence, n, TypeLead, ones);
    TotalOfOnes(ones);
  }

  lemma ClaimLinesCount(keys: seq<string>, groups: map<string, seq<Entry>>, evidence: seq<string>, n: nat, p: string)
    requires n <= |keys| && forall t :: t in keys ==> t in groups
    requires p == ClaimLead || p == ContextLead
    ensures CountLed(SummaryLines(keys, groups, evidence, n), p) == SizeOfFirst(keys, groups, n)
  {
    var sizes := seq(n, i requires 0 <= i < n => |groups[keys[i]]|);
    forall i | 0 <= i < n
      ensures CountLed(GroupLines(keys, groups, evidence, i), p) == sizes[i]
    {
      GroupCounts(keys, groups, evidence, i);
    }
    SummaryLed(keys, groups, evidence, n, p, sizes);
    TotalOfSizes(keys, groups, n, sizes);
  }

  lemma SupportLinesCount(keys: seq<string>, groups: map<string, seq<Entry>>, evidence: seq<string>, n: nat)
    requires n <= |keys| && forall t :: t in keys ==> t in groups
    ensures CountLed(SummaryLines(keys, groups, evidence, n), SupportLead) == SupportedOfFirst(keys, groups, evidence, n)
  {
    var supported := seq(n, i requires 0 <= i < n => if i < |evidence| then |groups[keys[i]]| else 0);
    forall i | 0 <= i < n
      ensures CountLed(GroupLines(keys, groups, evidence, i), SupportLead) == supported[i]
    {
      GroupCounts(keys, groups, evidence, i);
    }
    SummaryLed(keys, groups, evidence, n, SupportLead, supported);
    TotalOfSupported(keys, groups, evidence, n, supported);
  }

  /** The sum of a sequence of counts. */
  function Total(xs: seq<nat>): nat {
    if xs == [] then 0 else Total(xs[..|xs| - 1]) + xs[|xs| - 1]
  }

  /** Counted group by group: the lines led by `p` among the first `n` groups' lines. */
  lemma {:induction false} SummaryLed(keys: seq<string>, groups: map<string, seq<Entry>>, evidence: seq<string>, n: nat,
                                      p: string, counts: seq<nat>)
    requires n <= |keys| && forall t :: t in keys ==> t in groups
    requires |counts| == n
    requires forall i :: 0 <= i < n ==> CountLed(GroupLines(keys, groups, evidence, i), p) == counts[i]
    ensures CountLed(SummaryLines(keys, groups, evidence, n), p) == Total(counts)
  {
    if n > 0 {
      SummaryLed(keys, groups, evidence, n - 1, p, counts[..n - 1]);
      CountLedAppend(SummaryLines(keys, groups, evidence, n - 1), GroupLines(keys, groups, evidence, n - 1), p);
    }
  }

  /** Group `i` has one "Claim Type:" line, one "Claim:" and one "Context:" line per claim, and its evidence lines. */
  lemma GroupCounts(keys: seq<string>, groups: map<string, seq<Entry>>, evidence: seq<string>, i: nat)
    requires i < |keys| && forall t :: t in keys ==> t in groups
    ensures CountLed(GroupLines(keys, groups, evidence, i), TypeLead) == 1
    ensures CountLed(GroupLines(keys, groups, evidence, i), ClaimLead) == |groups[keys[i]]|
    ensures CountLed(GroupLines(keys, groups, evidence, i), ContextLead) == |groups[keys[i]]|
    ensures CountLed(GroupLines(keys, groups, evidence, i), SupportLead) == if i < |evidence| then |groups[keys[i]]| else 0
  {
    var head := [TypeLead + keys[i]];
    var body := ClaimLines(groups[keys[i]], SupportOf(evidence, i));
    TypeLineCounts(keys[i]);
    ClaimLinesCounts(groups[keys[i]], SupportOf(evidence, i));
    CountLedAppend(head, body, TypeLead);
    CountLedAppend(head, body, ClaimLead);
    CountLedAppend(head, body, ContextLead);
    CountLedAppend(head, body, SupportLead);
  }

  /** A group's "Claim Type:" line is led by that lead only. */
  lemma TypeLineCounts(t: string)
    ensures CountLed([TypeLead + t], TypeLead) == 1 && CountLed([TypeLead + t], ClaimLead) == 0
    ensures CountLed([TypeLead + t], ContextLead) == 0 && CountLed([TypeLead + t], SupportLead) == 0
  {
    Leads(t);
    CountLedOne(TypeLead + t, TypeLead);
    CountLedOne(TypeLead + t, ClaimLead);
    CountLedOne(TypeLead + t, ContextLead);
    CountLedOne(TypeLead + t, SupportLead);
  }

  lemma {:induction false} TotalOfOnes(xs: seq<nat>)
    requires forall i :: 0 <= i < |xs| ==> xs[i] == 1
    ensures Total(xs) == |xs|
  {
    if xs != [] {
      TotalOfOnes(xs[..|xs| - 1]);
    }
  }

  lemma {:induction false} TotalOfSizes(keys: seq<string>, groups: map<string, seq<Entry>>, n: nat, xs: seq<nat>)
    requires n <= |keys| && forall t :: t in keys ==> t in groups
    requires |xs| == n && forall i :: 0 <= i < n ==> xs[i] == |groups[keys[i]]|
    ensures Total(xs) == SizeOfFirst(keys, groups, n)
  {
    if n > 0 {
      TotalOfSizes(keys, groups, n - 1, xs[..n - 1]);
    }
  }

  lemma {:induction false} TotalOfSupported(keys: seq<string>, groups: map<string, seq<Entry>>, evidence: seq<string>,
                                            n: nat, xs: seq<nat>)
    requires n <= |keys| && forall t :: t in keys ==> t in groups
    requires |xs| == n && forall i :: 0 <= i < n ==> xs[i] == if i < |evidence| then |groups[keys[i]]| else 0
    ensures Total(xs) == SupportedOfFirst(keys, groups, evidence, n)
  {
    if n > 0 {
      TotalOfSupported(keys, groups, evidence, n - 1, xs[..n - 1]);
    }
  }

  /** The first `n` groups' sizes are the sizes of the claims' groups. */
  lemma {:induction false} SizesOfGrouping(claims: seq<Claim>, groups: map<string, seq<Entry>>, n: nat)
    requires n <= |Keys(claims)|
    requires forall t :: t in Keys(claims) ==> t in groups && groups[t] == GroupOf(claims, t)
    ensures SizeOfFirst(Keys(claims), groups, n) == GroupSizes(Keys(claims)[..n], claims)
  {
    if n > 0 {
      SizesOfGrouping(claims, groups, n - 1);
      assert Keys(claims)[..n][..n - 1] == Keys(claims)[..n - 1];
    }
  }

  /**
   * For the grouping of a claim list, the summary has one "Claim Type:" line
   * per distinct type and exactly one "Claim:" and one "Context:" line per
   * claim; when there are at least as many evidence entries as groups, one
   * "Supporting Evidence:" line per claim too.
   */
  lemma SummaryOfClaims(claims: seq<Claim>, groups: map<string, seq<Entry>>, evidence: seq<string>)
    requires forall t :: t in Keys(claims) ==> t in groups && groups[t] == GroupOf(claims, t)
    ensures CountLed(Summary(Keys(claims), groups, evidence), TypeLead) == |Keys(claims)|
    ensures CountLed(Summary(Keys(claims), groups, evidence), ClaimLead) == |claims|
    ensures CountLed(Summary(Keys(claims), groups, evidence), ContextLead) == |claims|
    ensures |evidence| >= |Keys(claims)| ==> CountLed(Summary(Keys(claims), groups, evidence), SupportLead) == |claims|
  {
    var keys := Keys(claims);
    SummaryCounts(keys, groups, evidence, |keys|);
    SizesOfGrouping(claims, groups, |keys|);
    assert keys[..|keys|] == keys;
    GroupingKeepsEveryClaim(claims);
    if |evidence| >= |keys| {
      AllSupported(keys, groups, evidence, |keys|);
    }
  }

  lemma {:induction false} AllSupported(keys: seq<string>, groups: map<string, seq<Entry>>, evidence: seq<string>, n: nat)
    requires n <= |keys| <= |evidence| && forall t :: t in keys ==> t in groups
    ensures SupportedOfFirst(keys, groups, evidence, n) == SizeOfFirst(keys, groups, n)
  {
    if n > 0 {
      AllSupported(keys, groups, evidence, n - 1);
    }
  }

  /** Without evidence, no "Supporting Evidence:" line is written. */
  lemma NoEvidenceNoSupport(keys: seq<string>, groups: map<string, seq<Entry>>, n: nat)
    requires n <= |keys| && forall t :: t in keys ==> t in groups
    ensures CountLed(SummaryLines(keys, groups, [], n), SupportLead) == 0
  {
    SummaryCounts(keys, groups, [], n);
    NoEvidenceSupportsNone(keys, groups, n);
  }

  lemma {:induction false} NoEvidenceSupportsNone(keys: seq<string>, groups: map<string, seq<Entry>>, n: nat)
    requires n <= |keys| && forall t :: t in keys ==> t in groups
    ensures SupportedOfFirst(keys, groups, [], n) == 0
  {
    if n > 0 {
      NoEvidenceSupportsNone(keys, groups, n - 1);
    }
  }

  /** Evidence at an index at or beyond the number of groups is never used. */
  lemma {:induction false} ExtraEvidenceUnused(keys: seq<string>, groups: map<string, seq<Entry>>, evidence: seq<string>, n: nat)
    requires n <= |keys| <= |evidence| && forall t :: t in keys ==> t in groups
    ensures SummaryLines(keys, groups, evidence, n) == SummaryLines(keys, groups, evidence[..|keys|], n)
  {
    if n > 0 {
      ExtraEvidenceUnused(keys, groups, evidence, n - 1);
      assert SupportOf(evidence, n - 1) == SupportOf(evidence[..|keys|], n - 1);
    }
  }
}
