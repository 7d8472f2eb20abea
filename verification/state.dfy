/** The data gen-wiki.py works on: JSON values and insertion-ordered
    dictionaries, the parsed Terraform state document, and the resource
    configuration read from YAML. */
module State {
  import opened Options
  import opened Text

  /** A JSON scalar as Python holds it after `json.loads`. */
  datatype Value = Null | Bool(b: bool) | Int(i: int) | Str(s: string)

  /** Python's `str(v)`: a string is its own text, an integer its decimal
      digits (a minus sign exactly when negative, no leading zero), and only `None` itself or the string `"None"` print as
      `None`. */
  function ValueText(v: Value): (r: string)
    ensures v.Str? ==> r == v.s
    ensures v.Int? ==> r != [] && AllDigits(if r[0] == '-' then r[1..] else r) && IntValue(r) == v.i
    ensures v.Int? ==> (r[0] == '-') == (v.i < 0)
    ensures v.Int? ==> (r[0] == '-' ==> |r| > 1 && r[1] != '0')
    ensures v.Int? ==> (r[0] == '0' ==> |r| == 1)
    ensures v.Bool? ==> (r == "True" <==> v.b) && (r == "False" <==> !v.b)
    ensures r == "None" <==> v == Null || v == Str("None")
  {
    match v
    case Null => "None"
    case Bool(b) => if b then "True" else "False"
    case Int(i) =>
      IntTextRoundTrip(i);
      assert IsDigit(IntText(i)[0]) || IntText(i)[0] == '-';
      IntText(i)
    case Str(s) => s
  }

  datatype Entry = Entry(key: string, value: Value)

  /** A Python dictionary: its entries in insertion order. */
  type Dict = seq<Entry>

  /** The keys of `d` in insertion order (Python's `list(d.keys())`). */
  function Keys(d: Dict): (ks: seq<string>)
    ensures |ks| == |d|
    ensures forall i :: 0 <= i < |d| ==> ks[i] == d[i].key
  {
    if d == [] then [] else [d[0].key] + Keys(d[1..])
  }

  /** Python's `d.get(k)`: the value stored under `k`, if any. */
  function Get(d: Dict, k: string): (r: Option<Value>)
    ensures r.None? <==> k !in Keys(d)
    ensures r.Some? ==> FirstIndex(Keys(d), k) < |d| && r.value == d[FirstIndex(Keys(d), k)].value
  {
    if d == [] then None
    else if d[0].key == k then Some(d[0].value)
    else Get(d[1..], k)
  }

  /** Python's `d[k] = v`. */
  function Put(d: Dict, k: string, v: Value): Dict {
    if d == [] then [Entry(k, v)]
    else if d[0].key == k then [Entry(k, v)] + d[1..]
    else [d[0]] + Put(d[1..], k, v)
  }

  /** After `d[k] = v` the dictionary maps `k` to `v` and every other key as
      before; an existing key keeps its place and a new key goes to the end. */
  lemma PutSpec(d: Dict, k: string, v: Value)
    ensures Get(Put(d, k, v), k) == Some(v)
    ensures forall k' :: k' != k ==> Get(Put(d, k, v), k') == Get(d, k')
    ensures k in Keys(d) ==> Keys(Put(d, k, v)) == Keys(d)
    ensures k !in Keys(d) ==> Keys(Put(d, k, v)) == Keys(d) + [k]
  {
    PutValues(d, k, v);
    PutKeys(d, k, v);
  }

  lemma {:induction false} PutValues(d: Dict, k: string, v: Value)
    ensures Get(Put(d, k, v), k) == Some(v)
    ensures forall k' :: k' != k ==> Get(Put(d, k, v), k') == Get(d, k')
  {
    if d != [] && d[0].key != k {
      var r, rest := Put(d, k, v), Put(d[1..], k, v);
      PutValues(d[1..], k, v);
      assert r[0] == d[0] && r[1..] == rest;
      forall k' | k' != k
        ensures Get(r, k') == Get(d, k')
      {
        if d[0].key != k' {
          assert Get(r, k') == Get(rest, k');
        }
      }
    }
  }

  lemma {:induction false} PutKeys(d: Dict, k: string, v: Value)
    ensures k in Keys(d) ==> Keys(Put(d, k, v)) == Keys(d)
    ensures k !in Keys(d) ==> Keys(Put(d, k, v)) == Keys(d) + [k]
  {
    var r := Put(d, k, v);
    if d != [] && d[0].key == k {
      assert r[1..] == d[1..];
      assert Keys(r) == [k] + Keys(d[1..]);
      assert Keys(d) == [k] + Keys(d[1..]);
    } else if d != [] {
      var rest := Put(d[1..], k, v);
      PutKeys(d[1..], k, v);
      assert r[1..] == rest;
      assert Keys(r) == [d[0].key] + Keys(rest);
      assert Keys(d) == [d[0].key] + Keys(d[1..]);
    }
  }

  /** No key occurs twice, as in every Python dictionary. */
  predicate UniqueKeys(d: Dict) {
    forall i, j :: 0 <= i < j < |Keys(d)| ==> Keys(d)[i] != Keys(d)[j]
  }

  /** `d[k] = v` keeps the keys of a dictionary unique. */
  lemma PutKeepsUniqueKeys(d: Dict, k: string, v: Value)
    requires UniqueKeys(d)
    ensures UniqueKeys(Put(d, k, v))
  {
    PutKeys(d, k, v);
  }

  /** A resource instance; `attributes` is `None` when the key is absent. */
  datatype Instance = Instance(attributes: Option<Dict>)

  /** A resource of the state document; a field is `None` when its key is
      absent from the JSON object. */
  datatype Resource = Resource(rtype: Option<string>, instances: Option<seq<Instance>>)

  /** The parsed state document (`{"resources": [...]}`). */
  datatype Document = Document(resources: Option<seq<Resource>>)

  /** `instance.get('attributes', {})` */
  function AttributesOf(inst: Instance): Dict {
    inst.attributes.GetOr([])
  }

  /** `resource.get('instances', [])` */
  function InstancesOf(r: Resource): seq<Instance> {
    r.instances.GetOr([])
  }

  /** `data.get('resources', [])` */
  function ResourcesOf(doc: Document): seq<Resource> {
    doc.resources.GetOr([])
  }

  /** `attributes.get(name)`: the stored value, or `None` when absent. */
  function Lookup(attrs: Dict, name: string): Value {
    Get(attrs, name).GetOr(Null)
  }

  /** The settings of one configured resource type; a field is `None` when
      its key is absent from the YAML mapping. */
  datatype Settings = Settings(header: Option<string>, attributes: Option<seq<string>>)

  datatype ConfigEntry = ConfigEntry(resourceType: string, settings: Settings)

  /** The configuration file: its `resources` mapping, in file order. */
  datatype Config = Config(resources: Option<seq<ConfigEntry>>)

  /** `config.get('resources', {}).items()` */
  function EntriesOf(config: Config): seq<ConfigEntry> {
    config.resources.GetOr([])
  }

  /** `settings.get('header', resource_type)` */
  function HeaderOf(e: ConfigEntry): string {
    e.settings.header.GetOr(e.resourceType)
  }

  /** `settings.get('attributes', [])` */
  function NamesOf(e: ConfigEntry): seq<string> {
    e.settings.attributes.GetOr([])
  }
}
