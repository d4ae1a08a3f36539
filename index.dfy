/**
 * The in-memory resource index: one view by kind, one by namespace and kind,
 * and one by label, each a map from keys to stored records. A stored record is
 * filed under the key its own identity gives it, so a later record with the
 * same identity replaces an earlier one.
 */
module Index {
  import opened Wrappers
  import opened Seqs
  import opened Unstructured
  import opened GoMaps

  type Bucket = map<string, Object>
  type KindView = map<GVK, Bucket>
  type NamespaceView = map<string, map<GVK, Bucket>>
  type LabelView = map<string, Bucket>

  // ---------------------------------------------------------------- keys

  /** Key of a record in the kind view: its name, prefixed by "namespace/" when it has one. */
  function KeyFor(namespace: string, name: string): string
  {
    if namespace == "" then name else namespace + "/" + name
  }

  function KindKey(obj: Object): string { KeyFor(GetNamespace(obj), GetName(obj)) }

  /** Key of a record in a label bucket: always "namespace/name", even for cluster-scoped records. */
  function EntryKey(obj: Object): string { GetNamespace(obj) + "/" + GetName(obj) }

  /** The label-view keys "key=value" of a label map. */
  function LabelKeysOf(labels: map<string, string>, ks: set<string>): set<string>
  {
    set k | k in ks && k in labels :: k + "=" + labels[k]
  }

  function LabelKeys(obj: Object): set<string>
  {
    var labels := GetLabels(obj);
    LabelKeysOf(labels, labels.Keys)
  }

  function BucketOf<K>(v: map<K, Bucket>, k: K): Bucket
  {
    if k in v then v[k] else map[]
  }

  function NsBucket(v: NamespaceView, namespace: string, gvk: GVK): Bucket
  {
    if namespace in v then BucketOf(v[namespace], gvk) else map[]
  }

  // ---------------------------------------------------------------- one Add

  /** The kind view after filing `obj`: its own slot now holds it, every other slot is unchanged. */
  function AddToKinds(v: KindView, obj: Object): (w: KindView)
    ensures w.Keys == v.Keys + {GroupVersionKind(obj)}
    ensures w[GroupVersionKind(obj)] == BucketOf(v, GroupVersionKind(obj))[KindKey(obj) := obj]
    ensures forall g :: g in v && g != GroupVersionKind(obj) ==> w[g] == v[g]
  {
    var gvk := GroupVersionKind(obj);
    v[gvk := BucketOf(v, gvk)[KindKey(obj) := obj]]
  }

  /** The namespace view after filing `obj`: cluster-scoped records leave it unchanged. */
  function AddToNamespaces(v: NamespaceView, obj: Object): (w: NamespaceView)
    ensures GetNamespace(obj) == "" ==> w == v
    ensures GetNamespace(obj) != "" ==>
      w.Keys == v.Keys + {GetNamespace(obj)} &&
      (forall ns :: ns in v && ns != GetNamespace(obj) ==> w[ns] == v[ns])
    ensures GetNamespace(obj) != "" ==>
      var ns := GetNamespace(obj);
      var old_ := if ns in v then v[ns] else map[];
      var gvk := GroupVersionKind(obj);
      w[ns] == old_[gvk := BucketOf(old_, gvk)[GetName(obj) := obj]]
  {
    var ns := GetNamespace(obj);
    if ns == "" then v
    else
      var inner := if ns in v then v[ns] else map[];
      var gvk := GroupVersionKind(obj);
      v[ns := inner[gvk := BucketOf(inner, gvk)[GetName(obj) := obj]]]
  }

  /** `v` with `obj` filed under `entry` in the buckets of `lks`, creating the missing ones. */
  function Stamp(v: LabelView, lks: set<string>, entry: string, obj: Object): (w: LabelView)
    ensures w.Keys == v.Keys + lks
    ensures forall lk :: lk in lks ==> w[lk] == BucketOf(v, lk)[entry := obj]
    ensures forall lk :: lk in v && lk !in lks ==> w[lk] == v[lk]
  {
    map lk | lk in v.Keys + lks :: if lk in lks then BucketOf(v, lk)[entry := obj] else v[lk]
  }

  function AddToLabels(v: LabelView, obj: Object): LabelView
  {
    Stamp(v, LabelKeys(obj), EntryKey(obj), obj)
  }

  // ---------------------------------------------------------------- BuildIndex

  function BuildKinds(rs: seq<Object>): KindView
  {
    if |rs| == 0 then map[] else AddToKinds(BuildKinds(rs[..|rs| - 1]), rs[|rs| - 1])
  }

  function BuildNamespaces(rs: seq<Object>): NamespaceView
  {
    if |rs| == 0 then map[] else AddToNamespaces(BuildNamespaces(rs[..|rs| - 1]), rs[|rs| - 1])
  }

  function BuildLabels(rs: seq<Object>): LabelView
  {
    if |rs| == 0 then map[] else AddToLabels(BuildLabels(rs[..|rs| - 1]), rs[|rs| - 1])
  }

  // ---------------------------------------------------------------- invariants

  ghost predicate KindsKeyed(v: KindView) {
    forall g, k :: g in v && k in v[g] ==> GroupVersionKind(v[g][k]) == g && KindKey(v[g][k]) == k
  }

  ghost predicate NamespacesKeyed(v: NamespaceView) {
    forall ns, g, n :: ns in v && g in v[ns] && n in v[ns][g] ==>
      ns != "" && GetNamespace(v[ns][g][n]) == ns &&
      GroupVersionKind(v[ns][g][n]) == g && GetName(v[ns][g][n]) == n
  }

  ghost predicate LabelsKeyed(v: LabelView) {
    forall lk, e :: lk in v && e in v[lk] ==> EntryKey(v[lk][e]) == e && lk in LabelKeys(v[lk][e])
  }

  lemma AddKindsKeyed(v: KindView, obj: Object)
    requires KindsKeyed(v)
    ensures KindsKeyed(AddToKinds(v, obj))
  {
    var w := AddToKinds(v, obj);
    forall g, k | g in w && k in w[g] ensures GroupVersionKind(w[g][k]) == g && KindKey(w[g][k]) == k {
      if g == GroupVersionKind(obj) && k != KindKey(obj) {
        assert k in v[g];
      }
    }
  }

  lemma AddNamespacesKeyed(v: NamespaceView, obj: Object)
    requires NamespacesKeyed(v)
    ensures NamespacesKeyed(AddToNamespaces(v, obj))
  {
    var w := AddToNamespaces(v, obj);
    var ns0 := GetNamespace(obj);
    forall ns, g, n | ns in w && g in w[ns] && n in w[ns][g]
      ensures ns != "" && GetNamespace(w[ns][g][n]) == ns &&
              GroupVersionKind(w[ns][g][n]) == g && GetName(w[ns][g][n]) == n
    {
      if ns0 != "" && ns == ns0 {
        if g != GroupVersionKind(obj) || n != GetName(obj) {
          assert ns in v && g in v[ns] && n in v[ns][g];
        }
      }
    }
  }

  lemma AddLabelsKeyed(v: LabelView, obj: Object)
    requires LabelsKeyed(v)
    ensures LabelsKeyed(AddToLabels(v, obj))
  {
    var w := AddToLabels(v, obj);
    forall lk, e | lk in w && e in w[lk] ensures EntryKey(w[lk][e]) == e && lk in LabelKeys(w[lk][e]) {
      if lk in LabelKeys(obj) && e != EntryKey(obj) {
        assert lk in v && e in v[lk];
      }
    }
  }

  /** Every record the index holds sits under the key its own identity gives it. */
  lemma {:induction false} BuildKeyed(rs: seq<Object>)
    ensures KindsKeyed(BuildKinds(rs))
    ensures NamespacesKeyed(BuildNamespaces(rs))
    ensures LabelsKeyed(BuildLabels(rs))
  {
    if |rs| > 0 {
      BuildKeyed(rs[..|rs| - 1]);
      AddKindsKeyed(BuildKinds(rs[..|rs| - 1]), rs[|rs| - 1]);
      AddNamespacesKeyed(BuildNamespaces(rs[..|rs| - 1]), rs[|rs| - 1]);
      AddLabelsKeyed(BuildLabels(rs[..|rs| - 1]), rs[|rs| - 1]);
    }
  }

  // ---------------------------------------------------------------- what Build stores

  /** The last record of `rs` that satisfies `p`. */
  function LastWhere(rs: seq<Object>, p: Object -> bool): (r: Option<Object>)
    ensures r.Some? ==> r.value in rs && p(r.value)
    ensures r.None? <==> forall i :: 0 <= i < |rs| ==> !p(rs[i])
  {
    if |rs| == 0 then None
    else if p(rs[|rs| - 1]) then Some(rs[|rs| - 1])
    else
      var r := LastWhere(rs[..|rs| - 1], p);
      assert forall i :: 0 <= i < |rs| - 1 ==> rs[i] == rs[..|rs| - 1][i];
      r
  }

  function HasKindKey(g: GVK, k: string): Object -> bool
  {
    r => GroupVersionKind(r) == g && KindKey(r) == k
  }

  function HasNamespacedName(ns: string, g: GVK, n: string): Object -> bool
  {
    r => ns != "" && GetNamespace(r) == ns && GroupVersionKind(r) == g && GetName(r) == n
  }

  function HasLabelEntry(lk: string, e: string): Object -> bool
  {
    r => lk in LabelKeys(r) && EntryKey(r) == e
  }

  /** Last write wins: the kind view holds, for each identity, the last record added with it. */
  lemma {:induction false} BuildKindsLookup(rs: seq<Object>, g: GVK, k: string)
    ensures (g in BuildKinds(rs) && k in BuildKinds(rs)[g]) <==> LastWhere(rs, HasKindKey(g, k)).Some?
    ensures g in BuildKinds(rs) && k in BuildKinds(rs)[g] ==>
              BuildKinds(rs)[g][k] == LastWhere(rs, HasKindKey(g, k)).value
  {
    if |rs| > 0 {
      BuildKindsLookup(rs[..|rs| - 1], g, k);
    }
  }

  /** Filing one record touches the namespace bucket slot of its own namespaced name only. */
  lemma NsBucketStep(v: NamespaceView, obj: Object, ns: string, g: GVK, n: string)
    ensures var w := AddToNamespaces(v, obj);
            (n in NsBucket(w, ns, g) <==> HasNamespacedName(ns, g, n)(obj) || n in NsBucket(v, ns, g)) &&
            (n in NsBucket(w, ns, g) ==>
               NsBucket(w, ns, g)[n] == if HasNamespacedName(ns, g, n)(obj) then obj else NsBucket(v, ns, g)[n])
  {
  }

  /** The namespace view holds, for each namespaced name, the last record added with it. */
  lemma {:induction false} BuildNamespacesLookup(rs: seq<Object>, ns: string, g: GVK, n: string)
    ensures n in NsBucket(BuildNamespaces(rs), ns, g) <==> LastWhere(rs, HasNamespacedName(ns, g, n)).Some?
    ensures n in NsBucket(BuildNamespaces(rs), ns, g) ==>
              NsBucket(BuildNamespaces(rs), ns, g)[n] == LastWhere(rs, HasNamespacedName(ns, g, n)).value
  {
    if |rs| > 0 {
      var init := rs[..|rs| - 1];
      BuildNamespacesLookup(init, ns, g, n);
      NsBucketStep(BuildNamespaces(init), rs[|rs| - 1], ns, g, n);
    }
  }

  /** A label bucket holds, for each "namespace/name", the last record added with that label and name. */
  lemma {:induction false} BuildLabelsLookup(rs: seq<Object>, lk: string, e: string)
    ensures e in BucketOf(BuildLabels(rs), lk) <==> LastWhere(rs, HasLabelEntry(lk, e)).Some?
    ensures e in BucketOf(BuildLabels(rs), lk) ==>
              BucketOf(BuildLabels(rs), lk)[e] == LastWhere(rs, HasLabelEntry(lk, e)).value
  {
    if |rs| > 0 {
      BuildLabelsLookup(rs[..|rs| - 1], lk, e);
    }
  }

  // ---------------------------------------------------------------- agreement of the views

  lemma SlashSplit(a: string, b: string, c: string, d: string)
    requires '/' !in a && '/' !in c && a + "/" + b == c + "/" + d
    ensures a == c && b == d
  {
    var s := a + "/" + b;
    assert s[..|a|] == a && s[|a|] == '/';
    assert s[..|c|] == c && s[|c|] == '/';
    assert |a| == |c|;
    assert b == s[|a| + 1..] == d;
  }

  /** Names and namespaces as Kubernetes forms them: no "/" inside. */
  predicate SlashFree(obj: Object)
  {
    '/' !in GetNamespace(obj) && '/' !in GetName(obj)
  }

  lemma SameIdentity(r: Object, ns: string, g: GVK, n: string)
    requires SlashFree(r) && ns != "" && '/' !in ns
    ensures HasKindKey(g, ns + "/" + n)(r) == HasNamespacedName(ns, g, n)(r)
  {
    if GetNamespace(r) == "" {
      assert (ns + "/" + n)[|ns|] == '/';
      assert KindKey(r) != ns + "/" + n;
    } else if KindKey(r) == ns + "/" + n {
      SlashSplit(GetNamespace(r), GetName(r), ns, n);
    }
  }

  lemma {:induction false} LastWhereAgree(rs: seq<Object>, p: Object -> bool, q: Object -> bool)
    requires forall i :: 0 <= i < |rs| ==> p(rs[i]) == q(rs[i])
    ensures LastWhere(rs, p) == LastWhere(rs, q)
  {
    if |rs| > 0 {
      assert forall i :: 0 <= i < |rs| - 1 ==> rs[..|rs| - 1][i] == rs[i];
      LastWhereAgree(rs[..|rs| - 1], p, q);
    }
  }

  /**
   * When names carry no "/", listing a kind in one namespace finds exactly the
   * records that listing the kind across all namespaces files under "namespace/".
   */
  lemma NamespaceViewAgrees(rs: seq<Object>, ns: string, g: GVK, n: string)
    requires forall i :: 0 <= i < |rs| ==> SlashFree(rs[i])
    requires ns != "" && '/' !in ns
    ensures n in NsBucket(BuildNamespaces(rs), ns, g) <==> ns + "/" + n in BucketOf(BuildKinds(rs), g)
    ensures n in NsBucket(BuildNamespaces(rs), ns, g) ==>
              NsBucket(BuildNamespaces(rs), ns, g)[n] == BucketOf(BuildKinds(rs), g)[ns + "/" + n]
  {
    forall i | 0 <= i < |rs|
      ensures HasKindKey(g, ns + "/" + n)(rs[i]) == HasNamespacedName(ns, g, n)(rs[i])
    {
      SameIdentity(rs[i], ns, g, n);
    }
    LastWhereAgree(rs, HasKindKey(g, ns + "/" + n), HasNamespacedName(ns, g, n));
    BuildKindsLookup(rs, g, ns + "/" + n);
    BuildNamespacesLookup(rs, ns, g, n);
  }

  // ---------------------------------------------------------------- queries

  /** The trimmed terms of a selector "k1=v1,k2=v2". */
  function Terms(selector: string): (ts: seq<string>)
    ensures |ts| == |Text.Split(selector, ',')| && |ts| >= 1
    ensures forall i :: 0 <= i < |ts| ==> ts[i] == Text.TrimSpace(Text.Split(selector, ',')[i])
  {
    var parts := Text.Split(selector, ',');
    seq(|parts|, i requires 0 <= i < |parts| => Text.TrimSpace(parts[i]))
  }

  /**
   * The records of the first term's bucket whose "namespace/name" key appears
   * in the bucket of every term.
   */
  function Matching(view: LabelView, terms: seq<string>): (m: Bucket)
    requires |terms| >= 1
    ensures m.Keys <= BucketOf(view, terms[0]).Keys
    ensures forall e :: e in m <==> forall i :: 0 <= i < |terms| ==> e in BucketOf(view, terms[i])
  {
    var first := BucketOf(view, terms[0]);
    map e | e in first && (forall i :: 0 <= i < |terms| ==> e in BucketOf(view, terms[i])) :: first[e]
  }

  ghost function PairsOf(v: KindView, gs: set<GVK>): set<(GVK, string)>
  {
    set g, k | g in gs && g in v && k in v[g] :: (g, k)
  }

  lemma {:induction false} TaggedCard(g: GVK, ks: set<string>)
    ensures |set k | k in ks :: (g, k)| == |ks|
    decreases ks
  {
    if ks != {} {
      var k :| k in ks;
      TaggedCard(g, ks - {k});
      assert (set x | x in ks :: (g, x)) == (set x | x in ks - {k} :: (g, x)) + {(g, k)};
    }
  }

  lemma PairsStep(v: KindView, done: set<GVK>, g: GVK)
    requires g in v && g !in done
    ensures |PairsOf(v, done + {g})| == |PairsOf(v, done)| + |v[g]|
  {
    var tagged := set k | k in v[g].Keys :: (g, k);
    assert PairsOf(v, done + {g}) == PairsOf(v, done) + tagged;
    assert PairsOf(v, done) !! tagged;
    TaggedCard(g, v[g].Keys);
  }

  lemma StampStep(v: LabelView, lks: set<string>, lk: string, entry: string, obj: Object)
    ensures var w := Stamp(v, lks, entry, obj);
            Stamp(v, lks + {lk}, entry, obj) == w[lk := BucketOf(w, lk)[entry := obj]]
  {
    var w := Stamp(v, lks, entry, obj);
    var a := Stamp(v, lks + {lk}, entry, obj);
    var b := w[lk := BucketOf(w, lk)[entry := obj]];
    assert a.Keys == b.Keys;
    forall x | x in a ensures a[x] == b[x] {
      if x == lk {
        if lk in lks {
          assert w[lk] == BucketOf(v, lk)[entry := obj];
          assert w[lk][entry := obj] == w[lk];
        } else {
          assert BucketOf(w, lk) == BucketOf(v, lk);
        }
      } else if x in lks {
        assert b[x] == w[x] == BucketOf(v, x)[entry := obj];
      } else {
        assert b[x] == w[x] == v[x];
      }
    }
  }

  lemma MatchingMissing(view: LabelView, terms: seq<string>, i: nat)
    requires i < |terms| && terms[i] !in view
    ensures Matching(view, terms) == map[]
  {
    assert BucketOf(view, terms[i]) == map[];
  }

  lemma MatchingStep(view: LabelView, terms: seq<string>, i: nat)
    requires 1 <= i < |terms| && terms[i] in view
    ensures var c := Matching(view, terms[..i]);
            Matching(view, terms[..i + 1]) == map e | e in c && e in view[terms[i]] :: c[e]
  {
    var c := Matching(view, terms[..i]);
    var m := Matching(view, terms[..i + 1]);
    forall e ensures e in m <==> e in c && e in view[terms[i]] {
      if e in m {
        assert e in BucketOf(view, terms[..i + 1][i]);
        assert forall j :: 0 <= j < i ==> terms[..i][j] == terms[..i + 1][j];
      }
      if e in c && e in view[terms[i]] {
        assert forall j :: 0 <= j < i ==> terms[..i][j] == terms[..i + 1][j];
      }
    }
  }

  lemma LabelKeysStep(labels: map<string, string>, done: set<string>, k: string)
    requires k in labels
    ensures LabelKeysOf(labels, done + {k}) == LabelKeysOf(labels, done) + {k + "=" + labels[k]}
  {
  }

  /** The label loop of `Add`: file `obj` under `entry` in the bucket "k=v" of every label. */
  method StampLabels(v: LabelView, labels: map<string, string>, entry: string, obj: Object)
    returns (w: LabelView)
    ensures w == Stamp(v, LabelKeysOf(labels, labels.Keys), entry, obj)
  {
    w := v;
    var todo := labels.Keys;
    ghost var done: set<string> := {};
    while todo != {}
      invariant todo + done == labels.Keys && todo !! done
      invariant w == Stamp(v, LabelKeysOf(labels, done), entry, obj)
      decreases |todo|
    {
      var k :| k in todo;
      var labelKey := k + "=" + labels[k];
      LabelKeysStep(labels, done, k);
      StampStep(v, LabelKeysOf(labels, done), labelKey, entry, obj);
      w := w[labelKey := BucketOf(w, labelKey)[entry := obj]];
      todo := todo - {k};
      done := done + {k};
    }
  }

  /** The distinct (kind, key) identities of a sequence of records. */
  ghost function Identities(rs: seq<Object>): set<(GVK, string)>
  {
    set i | 0 <= i < |rs| :: (GroupVersionKind(rs[i]), KindKey(rs[i]))
  }

  lemma IdentitiesSnoc(rs: seq<Object>)
    requires |rs| > 0
    ensures Identities(rs) == Identities(rs[..|rs| - 1]) + {(GroupVersionKind(rs[|rs| - 1]), KindKey(rs[|rs| - 1]))}
  {
    var init := rs[..|rs| - 1];
    assert forall i :: 0 <= i < |init| ==> init[i] == rs[i];
  }

  lemma AddPairs(v: KindView, obj: Object)
    ensures PairsOf(AddToKinds(v, obj), AddToKinds(v, obj).Keys)
         == PairsOf(v, v.Keys) + {(GroupVersionKind(obj), KindKey(obj))}
  {
    var w := AddToKinds(v, obj);
    var id := (GroupVersionKind(obj), KindKey(obj));
    forall p | p in PairsOf(w, w.Keys) ensures p in PairsOf(v, v.Keys) || p == id {
      if p != id && p.0 == id.0 {
        assert p.1 in v[p.0];
      }
    }
    forall p | p in PairsOf(v, v.Keys) ensures p in PairsOf(w, w.Keys) {
      assert p.0 in w && p.1 in w[p.0];
    }
    assert id in PairsOf(w, w.Keys) by { assert id.0 in w && id.1 in w[id.0]; }
  }

  /** `Count` grows by one when `Add` files a new identity and stays put when it replaces a record. */
  lemma AddCount(v: KindView, obj: Object)
    ensures var w := AddToKinds(v, obj);
            |PairsOf(w, w.Keys)| ==
              |PairsOf(v, v.Keys)| + (if GroupVersionKind(obj) in v && KindKey(obj) in v[GroupVersionKind(obj)] then 0 else 1)
  {
    AddPairs(v, obj);
    var id := (GroupVersionKind(obj), KindKey(obj));
    var before := PairsOf(v, v.Keys);
    if id.0 in v && id.1 in v[id.0] {
      assert id in before;
      assert before + {id} == before;
    } else {
      assert id !in before;
      assert |before + {id}| == |before| + 1;
    }
  }

  /** The slots of the kind view after `BuildIndex` are exactly the distinct identities of the records. */
  lemma {:induction false} BuildPairs(rs: seq<Object>)
    ensures PairsOf(BuildKinds(rs), BuildKinds(rs).Keys) == Identities(rs)
  {
    if |rs| > 0 {
      var init := rs[..|rs| - 1];
      BuildPairs(init);
      AddPairs(BuildKinds(init), rs[|rs| - 1]);
      assert BuildKinds(rs) == AddToKinds(BuildKinds(init), rs[|rs| - 1]);
      IdentitiesSnoc(rs);
    }
  }

  /** `Count` after `BuildIndex` never exceeds the number of records handed in. */
  lemma {:induction false} IdentitiesBound(rs: seq<Object>)
    ensures |Identities(rs)| <= |rs|
  {
    if |rs| > 0 {
      var init := rs[..|rs| - 1];
      IdentitiesBound(init);
      IdentitiesSnoc(rs);
    } else {
      assert Identities(rs) == {};
    }
  }

  /**
   * After `BuildIndex`, a selector matches the "namespace/name" keys that the
   * bucket of every term holds, and yields the last record filed under that key
   * with the FIRST term's label.
   */
  lemma MatchingAfterBuild(rs: seq<Object>, terms: seq<string>, e: string)
    requires |terms| >= 1
    ensures e in Matching(BuildLabels(rs), terms) <==>
              forall i :: 0 <= i < |terms| ==> LastWhere(rs, HasLabelEntry(terms[i], e)).Some?
    ensures e in Matching(BuildLabels(rs), terms) ==>
              Matching(BuildLabels(rs), terms)[e] == LastWhere(rs, HasLabelEntry(terms[0], e)).value
  {
    forall i | 0 <= i < |terms|
      ensures e in BucketOf(BuildLabels(rs), terms[i]) <==> LastWhere(rs, HasLabelEntry(terms[i], e)).Some?
    {
      BuildLabelsLookup(rs, terms[i], e);
    }
    BuildLabelsLookup(rs, terms[0], e);
  }

  /** Every key of the label view holds an "=". */
  lemma {:induction false} LabelKeysHaveEquals(rs: seq<Object>)
    ensures forall lk :: lk in BuildLabels(rs) ==> '=' in lk
  {
    if |rs| > 0 {
      LabelKeysHaveEquals(rs[..|rs| - 1]);
      var obj := rs[|rs| - 1];
      var labels := GetLabels(obj);
      forall lk | lk in LabelKeys(obj) ensures '=' in lk {
        var k :| k in labels && lk == k + "=" + labels[k];
        assert lk[|k|] == '=';
      }
    }
  }

  /** A blank selector term, such as the one a trailing comma leaves, matches nothing. */
  lemma BlankTermMatchesNothing(rs: seq<Object>, terms: seq<string>, i: nat)
    requires i < |terms| && terms[i] == ""
    ensures Matching(BuildLabels(rs), terms) == map[]
  {
    LabelKeysHaveEquals(rs);
    MatchingMissing(BuildLabels(rs), terms, i);
  }

  datatype IndexError =
    | NoResourcesForKind(gvk: GVK)
    | ResourceNotFound(gvk: GVK, namespace: string, name: string)

  class ResourceIndex {
    var byGVK: KindView
    var byNamespace: NamespaceView
    var byLabel: LabelView
    var namespaces: seq<string>

    ghost predicate Valid()
      reads this
    {
      KindsKeyed(byGVK) && NamespacesKeyed(byNamespace) && LabelsKeyed(byLabel)
    }

    constructor ()
      ensures Valid()
      ensures byGVK == map[] && byNamespace == map[] && byLabel == map[] && namespaces == []
    {
      byGVK := map[];
      byNamespace := map[];
      byLabel := map[];
      namespaces := [];
    }

    /** File `obj` in all three views, replacing whatever had the same key there. */
    method Add(obj: Object)
      requires Valid()
      modifies this
      ensures Valid()
      ensures byGVK == AddToKinds(old(byGVK), obj)
      ensures byNamespace == AddToNamespaces(old(byNamespace), obj)
      ensures byLabel == AddToLabels(old(byLabel), obj)
      ensures namespaces == old(namespaces)
    {
      var gvk := GroupVersionKind(obj);
      var name := GetName(obj);
      var namespace := GetNamespace(obj);

      // a missing bucket reads as a new empty one
      var gvkMap := if gvk in byGVK then byGVK[gvk] else map[];
      var key := name;
      if namespace != "" {
        key := namespace + "/" + name;
      }
      byGVK := byGVK[gvk := gvkMap[key := obj]];

      if namespace != "" {
        var nsMap := if namespace in byNamespace then byNamespace[namespace] else map[];
        var nsGvkMap := if gvk in nsMap then nsMap[gvk] else map[];
        byNamespace := byNamespace[namespace := nsMap[gvk := nsGvkMap[name := obj]]];
      }

      byLabel := StampLabels(byLabel, GetLabels(obj), namespace + "/" + name, obj);
      AddKindsKeyed(old(byGVK), obj);
      AddNamespacesKeyed(old(byNamespace), obj);
      AddLabelsKeyed(old(byLabel), obj);
    }

    /** `Get`: the record filed under the identity, or which of the two lookups failed. */
    method Get(gvk: GVK, namespace: string, name: string) returns (r: Result<Object, IndexError>)
      ensures gvk !in byGVK <==> r == Err(NoResourcesForKind(gvk))
      ensures r == Err(ResourceNotFound(gvk, namespace, name)) <==>
                gvk in byGVK && KeyFor(namespace, name) !in byGVK[gvk]
      ensures r.Ok? <==> gvk in byGVK && KeyFor(namespace, name) in byGVK[gvk]
      ensures r.Ok? ==> r.value == byGVK[gvk][KeyFor(namespace, name)]
    {
      if gvk !in byGVK {
        return Err(NoResourcesForKind(gvk));
      }
      var gvkMap := byGVK[gvk];
      var key := name;
      if namespace != "" {
        key := namespace + "/" + name;
      }
      if key !in gvkMap {
        return Err(ResourceNotFound(gvk, namespace, name));
      }
      return Ok(gvkMap[key]);
    }

    /** `List`: a namespace's bucket of the kind, or the whole kind when the namespace is "". */
    method List(gvk: GVK, namespace: string) returns (rs: seq<Object>)
      ensures namespace != "" ==> Enumerates(rs, NsBucket(byNamespace, namespace, gvk))
      ensures namespace == "" ==> Enumerates(rs, BucketOf(byGVK, gvk))
    {
      if namespace != "" {
        if namespace !in byNamespace {
          return [];
        }
        var nsMap := byNamespace[namespace];
        if gvk !in nsMap {
          return [];
        }
        rs := Enumerate(nsMap[gvk]);
      } else {
        if gvk !in byGVK {
          return [];
        }
        rs := Enumerate(byGVK[gvk]);
      }
    }

    /** `FindByLabel`: nothing for "", otherwise the records matching every term of the selector. */
    method FindByLabel(selector: string) returns (rs: seq<Object>)
      ensures selector == "" ==> rs == []
      ensures selector != "" ==> Enumerates(rs, Matching(byLabel, Terms(selector)))
    {
      if selector == "" {
        return [];
      }
      var selectors := Text.Split(selector, ',');
      ghost var terms := Terms(selector);
      var first := Text.TrimSpace(selectors[0]);
      if first !in byLabel {
        MatchingMissing(byLabel, terms, 0);
        return [];
      }
      var candidates := byLabel[first];
      assert candidates == Matching(byLabel, terms[..1]);
      var i := 1;
      while i < |selectors|
        invariant 1 <= i <= |selectors|
        invariant candidates == Matching(byLabel, terms[..i])
      {
        var term := Text.TrimSpace(selectors[i]);
        if term !in byLabel {
          MatchingMissing(byLabel, terms, i);
          return [];
        }
        var selectorMap := byLabel[term];
        var next := Intersect(candidates, selectorMap);
        MatchingStep(byLabel, terms, i);
        candidates := next;
        i := i + 1;
      }
      assert terms[..i] == terms;
      rs := Enumerate(candidates);
    }

    /** `ListGVKs`: every kind of the index, once each. */
    method ListGVKs() returns (gvks: seq<GVK>)
      ensures |gvks| == |byGVK|
      ensures NoDup(gvks)
      ensures forall g :: g in gvks <==> g in byGVK
    {
      gvks := Elements(byGVK.Keys);
    }

    /** `ListNamespaces`: the namespace roster handed to `BuildIndex`. */
    method ListNamespaces() returns (ns: seq<string>)
      ensures ns == namespaces
    {
      return namespaces;
    }

    /** `Count`: the number of distinct (kind, key) slots of the kind view. */
    method Count() returns (n: nat)
      ensures n == |PairsOf(byGVK, byGVK.Keys)|
    {
      n := 0;
      var todo := byGVK.Keys;
      ghost var done: set<GVK> := {};
      while todo != {}
        invariant todo + done == byGVK.Keys && todo !! done
        invariant n == |PairsOf(byGVK, done)|
        decreases |todo|
      {
        var g :| g in todo;
        PairsStep(byGVK, done, g);
        n := n + |byGVK[g]|;
        todo := todo - {g};
        done := done + {g};
      }
    }
  }

  /** `BuildIndex`: add the records in order to a fresh index that carries the roster. */
  method BuildIndex(resources: seq<Object>, namespaces: seq<string>) returns (idx: ResourceIndex)
    ensures fresh(idx) && idx.Valid()
    ensures idx.byGVK == BuildKinds(resources)
    ensures idx.byNamespace == BuildNamespaces(resources)
    ensures idx.byLabel == BuildLabels(resources)
    ensures idx.namespaces == namespaces
  {
    idx := new ResourceIndex();
    idx.namespaces := namespaces;
    for i := 0 to |resources|
      invariant idx.Valid() && idx.namespaces == namespaces
      invariant idx.byGVK == BuildKinds(resources[..i])
      invariant idx.byNamespace == BuildNamespaces(resources[..i])
      invariant idx.byLabel == BuildLabels(resources[..i])
    {
      assert resources[..i + 1][..i] == resources[..i];
      idx.Add(resources[i]);
    }
    assert resources[..|resources|] == resources;
  }
}
