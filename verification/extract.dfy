/** `extract_attributes` of gen-wiki.py: one record per instance of every
    resource of the requested type, in document order, holding either the
    instance's `id` alone or the configured attribute names. */
module Extract {
  import opened Options
  import opened Text
  import opened State

  /** Every key of `ks` occurs in `names`, and the keys appear in the order
      in which `names` first mentions them. */
  predicate InNameOrder(ks: seq<string>, names: seq<string>) {
    forall a, b :: 0 <= a < b < |ks| ==> FirstIndex(names, ks[a]) < FirstIndex(names, ks[b])
  }

  /** `d` holds exactly the non-empty names among the first `i` of `names`,
      each with the instance's value for it (Python `None` when the instance
      lacks it). */
  ghost predicate HoldsNames(d: Dict, attrs: Dict, names: seq<string>, i: nat)
    requires i <= |names|
  {
    forall k :: Get(d, k) == (if k in names[..i] && k != "" then Some(Lookup(attrs, k)) else None)
  }

  /** The loop over the configured names: `if attr: item[attr] = ...`, from
      the `i`-th name on. */
  function Fill(d: Dict, attrs: Dict, names: seq<string>, i: nat): Dict
    requires i <= |names|
    decreases |names| - i
  {
    if i == |names| then d
    else
      var name := names[i];
      Fill(if name != "" then Put(d, name, Lookup(attrs, name)) else d, attrs, names, i + 1)
  }

  lemma FirstIndexBelow(names: seq<string>, k: string, i: nat)
    requires i <= |names| && k in names[..i]
    ensures FirstIndex(names, k) < i
  {
    var j :| 0 <= j < i && names[..i][j] == k;
    assert names[j] == k;
  }

  lemma {:induction false} FillKeepsNames(d: Dict, attrs: Dict, names: seq<string>, i: nat)
    requires i <= |names|
    requires HoldsNames(d, attrs, names, i) && InNameOrder(Keys(d), names)
    ensures var r := Fill(d, attrs, names, i);
      HoldsNames(r, attrs, names, |names|) && InNameOrder(Keys(r), names)
    decreases |names| - i
  {
    if i < |names| {
      var name := names[i];
      var d' := if name != "" then Put(d, name, Lookup(attrs, name)) else d;
      StepHoldsNames(d, attrs, names, i);
      StepInNameOrder(d, attrs, names, i);
      FillKeepsNames(d', attrs, names, i + 1);
    }
  }

  lemma StepHoldsNames(d: Dict, attrs: Dict, names: seq<string>, i: nat)
    requires i < |names|
    requires HoldsNames(d, attrs, names, i)
    ensures var name := names[i];
      HoldsNames(if name != "" then Put(d, name, Lookup(attrs, name)) else d, attrs, names, i + 1)
  {
    assert names[..i + 1] == names[..i] + [names[i]];
    if names[i] != "" {
      PutSpec(d, names[i], Lookup(attrs, names[i]));
    }
  }

  lemma StepInNameOrder(d: Dict, attrs: Dict, names: seq<string>, i: nat)
    requires i < |names|
    requires HoldsNames(d, attrs, names, i) && InNameOrder(Keys(d), names)
    ensures var name := names[i];
      InNameOrder(Keys(if name != "" then Put(d, name, Lookup(attrs, name)) else d), names)
  {
    var name := names[i];
    if name != "" {
      PutKeys(d, name, Lookup(attrs, name));
    }
    if name != "" && name !in Keys(d) {
      assert Get(d, name).None?;
      assert name !in names[..i];
      assert FirstIndex(names, name) == i;
      forall a | 0 <= a < |Keys(d)|
        ensures FirstIndex(names, Keys(d)[a]) < i
      {
        var k := Keys(d)[a];
        assert Get(d, k).Some?;
        FirstIndexBelow(names, k, i);
      }
    }
  }

  /** The record extracted from one instance (gen-wiki.py lines 44-49). With no
      configured names it holds the instance's `id` alone; otherwise it holds
      each non-empty configured name once, in the order the names are first
      listed, with the instance's value or `None` when the instance lacks it. */
  function Project(inst: Instance, names: seq<string>): (r: Dict)
    ensures names == [] ==> Keys(r) == ["id"] && Get(r, "id") == Some(Lookup(AttributesOf(inst), "id"))
    ensures names != [] ==> InNameOrder(Keys(r), names)
    ensures names != [] ==>
      forall k :: Get(r, k) == (if k in names && k != "" then Some(Lookup(AttributesOf(inst), k)) else None)
  {
    var attrs := AttributesOf(inst);
    if names == [] then
      PutSpec([], "id", Lookup(attrs, "id"));
      Put([], "id", Lookup(attrs, "id"))
    else
      assert names[..|names|] == names;
      FillKeepsNames([], attrs, names, 0);
      Fill([], attrs, names, 0)
  }

  predicate Matches(r: Resource, rtype: string) {
    r.rtype == Some(rtype)
  }

  /** The instances of the resources of type `rtype`, in document order. */
  function MatchingInstances(rs: seq<Resource>, rtype: string): seq<Instance> {
    if rs == [] then []
    else (if Matches(rs[0], rtype) then InstancesOf(rs[0]) else []) + MatchingInstances(rs[1..], rtype)
  }

  lemma {:induction false} MatchingInstancesAppend(a: seq<Resource>, b: seq<Resource>, rtype: string)
    ensures MatchingInstances(a + b, rtype) == MatchingInstances(a, rtype) + MatchingInstances(b, rtype)
  {
    if a == [] {
      assert a + b == b;
    } else {
      assert (a + b)[1..] == a[1..] + b;
      MatchingInstancesAppend(a[1..], b, rtype);
    }
  }

  function ProjectAll(insts: seq<Instance>, names: seq<string>): seq<Dict> {
    seq(|insts|, i requires 0 <= i < |insts| => Project(insts[i], names))
  }

  /** The loops of gen-wiki.py lines 41-50 over a list of resources: the projections of
      exactly the matching instances, one each, in document order. */
  function ExtractFrom(rs: seq<Resource>, rtype: string, names: seq<string>): (r: seq<Dict>)
    ensures |r| == |MatchingInstances(rs, rtype)|
    ensures forall i :: 0 <= i < |r| ==> r[i] == Project(MatchingInstances(rs, rtype)[i], names)
  {
    if rs == [] then []
    else
      (if Matches(rs[0], rtype) then ProjectAll(InstancesOf(rs[0]), names) else [])
      + ExtractFrom(rs[1..], rtype, names)
  }

  /** `extract_attributes(data, resource_type, attributes)` */
  function ExtractAttributes(doc: Document, rtype: string, names: seq<string>): (r: seq<Dict>)
    ensures |r| == |MatchingInstances(ResourcesOf(doc), rtype)|
    ensures forall i :: 0 <= i < |r| ==> r[i] == Project(MatchingInstances(ResourcesOf(doc), rtype)[i], names)
  {
    ExtractFrom(ResourcesOf(doc), rtype, names)
  }

  /** Extraction follows document order: the records of a list of resources
      are those of its first part followed by those of its second. */
  lemma ExtractFromAppend(a: seq<Resource>, b: seq<Resource>, rtype: string, names: seq<string>)
    ensures ExtractFrom(a + b, rtype, names) == ExtractFrom(a, rtype, names) + ExtractFrom(b, rtype, names)
  {
    MatchingInstancesAppend(a, b, rtype);
  }

  /** Resources of another type contribute nothing, wherever they stand. */
  lemma {:induction false} ExtractFromIgnoresOthers(a: seq<Resource>, others: seq<Resource>, b: seq<Resource>,
                                                    rtype: string, names: seq<string>)
    requires forall i :: 0 <= i < |others| ==> !Matches(others[i], rtype)
    ensures ExtractFrom(a + others + b, rtype, names) == ExtractFrom(a + b, rtype, names)
  {
    NoMatchingInstances(others, rtype);
    var none := ExtractFrom(others, rtype, names);
    assert none == [];
    ExtractFromAppend(a + others, b, rtype, names);
    ExtractFromAppend(a, others, rtype, names);
    ExtractFromAppend(a, b, rtype, names);
    assert ExtractFrom(a + others, rtype, names) == ExtractFrom(a, rtype, names) + none;
    assert ExtractFrom(a, rtype, names) + none == ExtractFrom(a, rtype, names);
  }

  lemma {:induction false} NoMatchingInstances(rs: seq<Resource>, rtype: string)
    requires forall i :: 0 <= i < |rs| ==> !Matches(rs[i], rtype)
    ensures MatchingInstances(rs, rtype) == []
  {
    if rs != [] {
      assert !Matches(rs[0], rtype);
      NoMatchingInstances(rs[1..], rtype);
    }
  }

  /** There is no record exactly when no resource of the type has an
      instance. */
  lemma {:induction false} NoRecordsIff(rs: seq<Resource>, rtype: string, names: seq<string>)
    ensures ExtractFrom(rs, rtype, names) == [] <==>
      forall i :: 0 <= i < |rs| && Matches(rs[i], rtype) ==> InstancesOf(rs[i]) == []
  {
    if rs != [] {
      NoRecordsIff(rs[1..], rtype, names);
      assert forall i :: 1 <= i < |rs| ==> rs[i] == rs[1..][i - 1];
    }
  }

  /** The worked example of the tool's test suite: two `aws_instance`
      instances projected onto `id` and `name`. */
  lemma ExtractExample()
    ensures
      var doc := Document(Some([Resource(Some("aws_instance"), Some([
        Instance(Some([Entry("id", Str("i-12345")), Entry("name", Str("instance1"))])),
        Instance(Some([Entry("id", Str("i-67890")), Entry("name", Str("instance2"))]))]))]));
      ExtractAttributes(doc, "aws_instance", ["id", "name"]) ==
        [[Entry("id", Str("i-12345")), Entry("name", Str("instance1"))],
         [Entry("id", Str("i-67890")), Entry("name", Str("instance2"))]]
  {
    var names := ["id", "name"];
    var i1 := Instance(Some([Entry("id", Str("i-12345")), Entry("name", Str("instance1"))]));
    var i2 := Instance(Some([Entry("id", Str("i-67890")), Entry("name", Str("instance2"))]));
    ProjectExample(i1, "i-12345", "instance1");
    ProjectExample(i2, "i-67890", "instance2");
    ExtractOfOneResource("aws_instance", i1, i2, names);
  }

  /** A document with one resource of the type and two instances gives the
      projections of the two instances. */
  lemma ExtractOfOneResource(rtype: string, i1: Instance, i2: Instance, names: seq<string>)
    ensures ExtractAttributes(Document(Some([Resource(Some(rtype), Some([i1, i2]))])), rtype, names)
      == [Project(i1, names), Project(i2, names)]
  {
    var r := Resource(Some(rtype), Some([i1, i2]));
    assert MatchingInstances([r], rtype) == [i1, i2] + MatchingInstances([], rtype);
    var recs := ExtractAttributes(Document(Some([r])), rtype, names);
    assert |recs| == 2 && recs[0] == Project(i1, names) && recs[1] == Project(i2, names);
  }

  lemma ProjectExample(inst: Instance, id: string, name: string)
    requires inst == Instance(Some([Entry("id", Str(id)), Entry("name", Str(name))]))
    ensures Project(inst, ["id", "name"]) == [Entry("id", Str(id)), Entry("name", Str(name))]
  {
    var names := ["id", "name"];
    var attrs := AttributesOf(inst);
    assert Lookup(attrs, "id") == Str(id);
    assert attrs[1..] == [Entry("name", Str(name))];
    assert "id" != "name" by { assert "id"[0] != "name"[0]; }
    assert Get(attrs, "name") == Get(attrs[1..], "name");
    assert Lookup(attrs, "name") == Str(name);
    var d1 := Put([], "id", Str(id));
    assert d1 == [Entry("id", Str(id))];
    assert d1[0].key != "name" && d1[1..] == [];
    assert Put(d1[1..], "name", Str(name)) == [Entry("name", Str(name))];
    var d2 := Put(d1, "name", Str(name));
    assert d2 == [d1[0]] + Put(d1[1..], "name", Str(name));
    assert d2 == [Entry("id", Str(id)), Entry("name", Str(name))];
    assert Fill([], attrs, names, 0) == Fill(d1, attrs, names, 1) == Fill(d2, attrs, names, 2) == d2;
  }
}
