/** What FieldMapper derives from one snapshot of the Jira field list: the
    four lookup caches that `_build_caches` fills, the lookups that read them,
    and the two key translations. Everything here is a function of the
    snapshot; the class in field_mapper.dfy keeps these caches in its fields. */
module FieldCaches {
  import opened Values
  import opened Strings

  /** The `schema` entry of a field: its `type`, when it has one. */
  datatype Schema = Schema(kind: Option<string>)

  /** One field descriptor as `jira.fields()` returns it. `custom` is absent
      (None) when the descriptor carries no "custom" key. */
  datatype Descriptor = Descriptor(
    id: string,
    name: string,
    custom: Option<bool>,
    schema: Option<Schema>)

  /** `field.get("custom", False)` read as a truth value. */
  predicate IsCustom(f: Descriptor) {
    f.custom == Some(true)
  }

  /** The four caches: `_name_to_id`, `_id_to_name`, `_id_to_field` and
      `_custom_fields`. */
  datatype Caches = Caches(
    nameToId: map<string, string>,
    idToName: map<string, string>,
    idToField: map<string, Descriptor>,
    customIds: set<string>)

  const Empty := Caches(map[], map[], map[], {})

  /** One pass of the `_build_caches` loop: the exact name and its lower-cased
      form both map to the id, the id maps to the name and to the descriptor,
      and a custom id joins the custom set. Later descriptors overwrite. */
  function Step(c: Caches, f: Descriptor): Caches {
    Caches(
      c.nameToId[f.name := f.id][Lower(f.name) := f.id],
      c.idToName[f.id := f.name],
      c.idToField[f.id := f],
      if IsCustom(f) then c.customIds + {f.id} else c.customIds)
  }

  /** The caches after clearing them and running the loop over `fs`. */
  function Build(fs: seq<Descriptor>): Caches
    decreases |fs|
  {
    if fs == [] then Empty else Step(Build(fs[..|fs| - 1]), fs[|fs| - 1])
  }

  /** Key `k` is one of the two name keys descriptor `f` writes. */
  predicate NamesField(f: Descriptor, k: string) {
    k == f.name || k == Lower(f.name)
  }

  /** `fs[j]` is the last descriptor that writes name key `k`. */
  predicate LastNaming(fs: seq<Descriptor>, j: int, k: string) {
    0 <= j < |fs| && NamesField(fs[j], k) && forall m :: j < m < |fs| ==> !NamesField(fs[m], k)
  }

  /** `fs[j]` is the last descriptor with id `id`. */
  predicate LastWithId(fs: seq<Descriptor>, j: int, id: string) {
    0 <= j < |fs| && fs[j].id == id && forall m :: j < m < |fs| ==> fs[m].id != id
  }

  /** `_name_to_id.get(name) or _name_to_id.get(name.lower())`: the exact
      entry when it is a non-empty id, else whatever the lower-cased entry
      holds. */
  function LookupId(c: Caches, name: string): Option<string> {
    if name in c.nameToId && c.nameToId[name] != "" then Some(c.nameToId[name])
    else if Lower(name) in c.nameToId then Some(c.nameToId[Lower(name)])
    else None
  }

  /** `_id_to_name.get(field_id)`. */
  function LookupName(c: Caches, id: string): Option<string> {
    if id in c.idToName then Some(c.idToName[id]) else None
  }

  /** `_id_to_field.get(field_id)`. */
  function LookupField(c: Caches, id: string): Option<Descriptor> {
    if id in c.idToField then Some(c.idToField[id]) else None
  }

  /** `key in _name_to_id or key in _id_to_name`. */
  predicate Contains(c: Caches, key: string) {
    key in c.nameToId || key in c.idToName
  }

  /** The key `translate_fields` writes for `k`: a known id stays, a name
      `get_id` resolves to a non-empty id becomes that id, anything else
      stays. */
  function TranslateKey(c: Caches, k: string): string {
    if k in c.idToName then k
    else
      var id := LookupId(c, k);
      if id.Some? && id.value != "" then id.value else k
  }

  /** The key `translate_field_names` writes for `k`: the non-empty name of a
      known id, otherwise `k` itself. */
  function NameKey(c: Caches, k: string): string {
    var name := LookupName(c, k);
    if name.Some? && name.value != "" then name.value else k
  }

  /** A dict rebuilt pair by pair in iteration order, each key replaced by
      `key(k)`; a later pair whose new key collides overwrites the value. */
  function Rekey(d: Dict<Value>, key: string -> string): Dict<Value>
    decreases |d|
  {
    if d == [] then [] else Put(Rekey(d[..|d| - 1], key), key(d[|d| - 1].0), d[|d| - 1].1)
  }

  function ToId(c: Caches): string -> string {
    k => TranslateKey(c, k)
  }

  function ToName(c: Caches): string -> string {
    k => NameKey(c, k)
  }

  /** `translate_fields(fields)` against caches `c`. */
  function TranslateFields(c: Caches, d: Dict<Value>): Dict<Value> {
    Rekey(d, ToId(c))
  }

  /** `translate_field_names(raw_fields)` against caches `c`. */
  function TranslateFieldNames(c: Caches, d: Dict<Value>): Dict<Value> {
    Rekey(d, ToName(c))
  }

  /** The descriptors `get_custom_fields` may list, in some order: each custom
      id's descriptor once. */
  predicate ListsCustomFields(c: Caches, r: seq<Descriptor>) {
    |r| == |c.customIds * c.idToField.Keys| && DrawnFrom(r, c.customIds, c.idToField) && DistinctIds(r)
  }

  /** Every entry of `r` is the descriptor `table` holds for one of `ids`. */
  predicate DrawnFrom(r: seq<Descriptor>, ids: set<string>, table: map<string, Descriptor>) {
    forall i :: 0 <= i < |r| ==> r[i].id in ids && r[i].id in table && r[i] == table[r[i].id]
  }

  predicate DistinctIds(r: seq<Descriptor>) {
    forall i, j :: 0 <= i < j < |r| ==> r[i].id != r[j].id
  }

  /** `[id_to_field[fid] for fid in custom_fields if fid in id_to_field]`:
      the set is walked in an unspecified order, and each id with a
      descriptor contributes that descriptor once. */
  method CollectCustom(ids: set<string>, table: map<string, Descriptor>) returns (r: seq<Descriptor>)
    requires forall k | k in table :: table[k].id == k
    ensures |r| == |ids * table.Keys|
    ensures DrawnFrom(r, ids, table) && DistinctIds(r)
  {
    var todo := ids;
    ghost var done: set<string> := {};
    r := [];
    while todo != {}
      invariant done + todo == ids && done !! todo
      invariant |r| == |done * table.Keys|
      invariant DrawnFrom(r, done, table) && DistinctIds(r)
      decreases |todo|
    {
      var fid :| fid in todo;
      CountOneMore(done, fid, table.Keys);
      if fid in table {
        ExtendDrawn(r, done, table, fid);
        r := r + [table[fid]];
      } else {
        WidenDrawn(r, done, table, fid);
      }
      MoveOne(done, todo, ids, fid);
      todo, done := todo - {fid}, done + {fid};
    }
  }

  lemma MoveOne(done: set<string>, todo: set<string>, ids: set<string>, fid: string)
    requires done + todo == ids && done !! todo && fid in todo
    ensures (done + {fid}) + (todo - {fid}) == ids && (done + {fid}) !! (todo - {fid})
    ensures |todo - {fid}| < |todo| && fid !in done
  {
  }

  lemma ExtendDrawn(r: seq<Descriptor>, done: set<string>, table: map<string, Descriptor>, fid: string)
    requires DrawnFrom(r, done, table) && DistinctIds(r)
    requires fid !in done && fid in table && table[fid].id == fid
    ensures DrawnFrom(r + [table[fid]], done + {fid}, table) && DistinctIds(r + [table[fid]])
  {
  }

  lemma WidenDrawn(r: seq<Descriptor>, done: set<string>, table: map<string, Descriptor>, fid: string)
    requires DrawnFrom(r, done, table)
    ensures DrawnFrom(r, done + {fid}, table)
  {
  }

  lemma CountOneMore(done: set<string>, fid: string, keys: set<string>)
    requires fid !in done
    ensures |(done + {fid}) * keys| == |done * keys| + (if fid in keys then 1 else 0)
  {
    if fid in keys {
      assert (done + {fid}) * keys == done * keys + {fid};
    } else {
      assert (done + {fid}) * keys == done * keys;
    }
  }

  // ---------------------------------------------------------------------
  // What the caches hold after `_build_caches`

  /** One pass of the loop sets the two name keys of `f` to its id and leaves
      every other name key as it was. */
  lemma NameKeyStep(c: Caches, f: Descriptor, k: string)
    ensures k in Step(c, f).nameToId <==> NamesField(f, k) || k in c.nameToId
    ensures NamesField(f, k) ==> Step(c, f).nameToId[k] == f.id
    ensures !NamesField(f, k) && k in c.nameToId ==> Step(c, f).nameToId[k] == c.nameToId[k]
  {
  }

  /** A name key is cached exactly when some descriptor writes it. */
  lemma {:induction false} NameKeyIn(fs: seq<Descriptor>, k: string)
    ensures k in Build(fs).nameToId <==> exists j :: 0 <= j < |fs| && NamesField(fs[j], k)
    decreases |fs|
  {
    if fs != [] {
      var pre, f := fs[..|fs| - 1], fs[|fs| - 1];
      NameKeyIn(pre, k);
      assert Build(fs) == Step(Build(pre), f);
      NameKeyStep(Build(pre), f, k);
      if NamesField(f, k) {
        assert NamesField(fs[|fs| - 1], k);
      } else {
        forall j | 0 <= j < |fs| && NamesField(fs[j], k) ensures j < |pre| && NamesField(pre[j], k) {
        }
        forall j | 0 <= j < |pre| && NamesField(pre[j], k) ensures NamesField(fs[j], k) {
          assert pre[j] == fs[j];
        }
      }
    }
  }

  /** A cached name key holds the id of the LAST descriptor that writes it
      (last write wins). */
  lemma {:induction false} NameKeyLast(fs: seq<Descriptor>, k: string)
    ensures forall j :: LastNaming(fs, j, k) ==> k in Build(fs).nameToId && Build(fs).nameToId[k] == fs[j].id
    decreases |fs|
  {
    if fs != [] {
      var pre, f := fs[..|fs| - 1], fs[|fs| - 1];
      NameKeyLast(pre, k);
      assert Build(fs) == Step(Build(pre), f);
      NameKeyStep(Build(pre), f, k);
      if NamesField(f, k) {
        forall j | LastNaming(fs, j, k) ensures j == |fs| - 1 {
        }
      } else {
        forall j | LastNaming(fs, j, k) ensures LastNaming(pre, j, k) {
          assert j < |pre| && pre[j] == fs[j];
          assert forall m :: j < m < |pre| ==> pre[m] == fs[m];
        }
      }
    }
  }

  /** A name key is cached exactly when some descriptor writes it, and it
      holds the id of the LAST descriptor that does. */
  lemma NameKeyCached(fs: seq<Descriptor>, k: string)
    ensures k in Build(fs).nameToId <==> exists j :: 0 <= j < |fs| && NamesField(fs[j], k)
    ensures forall j :: LastNaming(fs, j, k) ==> Build(fs).nameToId[k] == fs[j].id
  {
    NameKeyIn(fs, k);
    NameKeyLast(fs, k);
  }

  /** An id is cached exactly when some descriptor has it, and its name and
      its descriptor are those of the LAST descriptor with that id. */
  lemma {:induction false} IdCached(fs: seq<Descriptor>, id: string)
    ensures id in Build(fs).idToName <==> exists j :: 0 <= j < |fs| && fs[j].id == id
    ensures id in Build(fs).idToField <==> id in Build(fs).idToName
    ensures forall j :: LastWithId(fs, j, id) ==>
      Build(fs).idToName[id] == fs[j].name && Build(fs).idToField[id] == fs[j]
    decreases |fs|
  {
    if fs != [] {
      var pre, f := fs[..|fs| - 1], fs[|fs| - 1];
      IdCached(pre, id);
      if f.id == id {
        assert fs[|fs| - 1].id == id;
        forall j | LastWithId(fs, j, id) ensures j == |fs| - 1 {
        }
      } else {
        forall j | 0 <= j < |fs| && fs[j].id == id ensures j < |pre| && pre[j].id == id {
        }
        forall j | LastWithId(fs, j, id) ensures LastWithId(pre, j, id) {
        }
        forall j | 0 <= j < |pre| && pre[j].id == id ensures fs[j].id == id {
        }
      }
    }
  }

  /** An id is a custom id exactly when some descriptor with that id says
      custom; a later non-custom descriptor with the same id does not take it
      out of the set. */
  lemma {:induction false} CustomCached(fs: seq<Descriptor>, id: string)
    ensures id in Build(fs).customIds <==> exists j :: 0 <= j < |fs| && fs[j].id == id && IsCustom(fs[j])
    decreases |fs|
  {
    if fs != [] {
      var pre, f := fs[..|fs| - 1], fs[|fs| - 1];
      CustomCached(pre, id);
      if f.id == id && IsCustom(f) {
        assert fs[|fs| - 1].id == id && IsCustom(fs[|fs| - 1]);
      }
      forall j | 0 <= j < |pre| && pre[j].id == id && IsCustom(pre[j]) ensures fs[j].id == id && IsCustom(fs[j]) {
      }
      forall j | 0 <= j < |fs| - 1 && fs[j].id == id && IsCustom(fs[j]) ensures pre[j].id == id && IsCustom(pre[j]) {
      }
    }
  }

  /** The caches agree with each other: every cached id names a cached
      field, every cached descriptor sits under its own id, and every custom
      id has a descriptor. */
  lemma {:induction false} CachesCoherent(fs: seq<Descriptor>)
    ensures forall k | k in Build(fs).nameToId :: Build(fs).nameToId[k] in Build(fs).idToName
    ensures forall id | id in Build(fs).idToField :: Build(fs).idToField[id].id == id
    ensures Build(fs).customIds <= Build(fs).idToField.Keys
    ensures Build(fs).idToField.Keys == Build(fs).idToName.Keys
    decreases |fs|
  {
    if fs != [] {
      CachesCoherent(fs[..|fs| - 1]);
    }
  }

  // ---------------------------------------------------------------------
  // Lookups

  /** `get_id` finds something exactly when some descriptor's name equals the
      query case-insensitively, and what it finds is the id of such a
      descriptor. An unknown name gives None, not an error. */
  lemma LookupIdSound(fs: seq<Descriptor>, name: string)
    ensures LookupId(Build(fs), name).Some? <==> exists j :: 0 <= j < |fs| && Lower(fs[j].name) == Lower(name)
    ensures LookupId(Build(fs), name).Some? ==>
      exists j :: 0 <= j < |fs| && Lower(fs[j].name) == Lower(name) && LookupId(Build(fs), name).value == fs[j].id
  {
    var c := Build(fs);
    NameKeyCached(fs, name);
    NameKeyCached(fs, Lower(name));
    if exists j :: 0 <= j < |fs| && Lower(fs[j].name) == Lower(name) {
      var j :| 0 <= j < |fs| && Lower(fs[j].name) == Lower(name);
      assert NamesField(fs[j], Lower(name));
    }
    if name in c.nameToId && c.nameToId[name] != "" {
      var j := LastNamingOf(fs, name);
      NamedKeyLowers(fs[j], name);
    } else if Lower(name) in c.nameToId {
      var j := LastNamingOf(fs, Lower(name));
      NamedKeyLowers(fs[j], Lower(name));
      LowerIdempotent(name);
    }
  }

  /** Whatever key a descriptor writes lowers to its lower-cased name. */
  lemma NamedKeyLowers(f: Descriptor, k: string)
    requires NamesField(f, k)
    ensures Lower(k) == Lower(f.name)
  {
    LowerIdempotent(f.name);
  }

  /** The index of the last descriptor writing a cached name key. */
  lemma {:induction false} LastNamingOf(fs: seq<Descriptor>, k: string) returns (j: int)
    requires exists m :: 0 <= m < |fs| && NamesField(fs[m], k)
    ensures LastNaming(fs, j, k)
    decreases |fs|
  {
    if NamesField(fs[|fs| - 1], k) {
      j := |fs| - 1;
    } else {
      var pre := fs[..|fs| - 1];
      var m :| 0 <= m < |fs| && NamesField(fs[m], k);
      assert NamesField(pre[m], k);
      j := LastNamingOf(pre, k);
      assert pre[j] == fs[j];
    }
  }

  /** The index of the last descriptor with a given id. */
  lemma {:induction false} LastWithIdOf(fs: seq<Descriptor>, id: string) returns (j: int)
    requires exists m :: 0 <= m < |fs| && fs[m].id == id
    ensures LastWithId(fs, j, id)
    decreases |fs|
  {
    if fs[|fs| - 1].id == id {
      j := |fs| - 1;
    } else {
      var pre := fs[..|fs| - 1];
      var m :| 0 <= m < |fs| && fs[m].id == id;
      assert pre[m].id == id;
      j := LastWithIdOf(pre, id);
      assert pre[j] == fs[j];
    }
  }

  /** A descriptor whose name no other descriptor shares, ignoring case, is
      found by `get_id` under every case variant of its name. */
  lemma GetIdOfUniqueName(fs: seq<Descriptor>, i: int, variant: string)
    requires 0 <= i < |fs|
    requires forall j :: 0 <= j < |fs| && j != i ==> Lower(fs[j].name) != Lower(fs[i].name)
    requires Lower(variant) == Lower(fs[i].name)
    ensures LookupId(Build(fs), variant) == Some(fs[i].id)
  {
    var c := Build(fs);
    NameKeyCached(fs, variant);
    NameKeyCached(fs, Lower(variant));
    assert NamesField(fs[i], Lower(variant));
    forall m | 0 <= m < |fs| && NamesField(fs[m], Lower(variant)) ensures m == i {
      NamedKeyLowers(fs[m], Lower(variant));
      LowerIdempotent(variant);
    }
    assert LastNaming(fs, i, Lower(variant));
    if variant in c.nameToId {
      forall m | 0 <= m < |fs| && NamesField(fs[m], variant) ensures m == i {
        NamedKeyLowers(fs[m], variant);
      }
      var j := LastNamingOf(fs, variant);
    }
  }

  /** `get_name`, `get_field` and `is_custom_field` of an id: None and False
      for an id no descriptor has; for a cached id, the name and the
      descriptor of the last descriptor with that id. */
  lemma GetNameAndField(fs: seq<Descriptor>, id: string)
    ensures LookupName(Build(fs), id).Some? <==> exists j :: 0 <= j < |fs| && fs[j].id == id
    ensures LookupField(Build(fs), id).Some? <==> exists j :: 0 <= j < |fs| && fs[j].id == id
    ensures forall j :: LastWithId(fs, j, id) ==>
      LookupName(Build(fs), id) == Some(fs[j].name) && LookupField(Build(fs), id) == Some(fs[j])
    ensures (forall j :: 0 <= j < |fs| ==> fs[j].id != id) ==> id !in Build(fs).customIds
  {
    IdCached(fs, id);
    CustomCached(fs, id);
  }

  /** A descriptor whose id no other descriptor shares is what `get_name`
      and `get_field` return for that id. */
  lemma GetNameOfUniqueId(fs: seq<Descriptor>, i: int)
    requires 0 <= i < |fs|
    requires forall j :: 0 <= j < |fs| && j != i ==> fs[j].id != fs[i].id
    ensures LookupName(Build(fs), fs[i].id) == Some(fs[i].name)
    ensures LookupField(Build(fs), fs[i].id) == Some(fs[i])
  {
    IdCached(fs, fs[i].id);
    assert LastWithId(fs, i, fs[i].id);
  }

  /** `is_custom_field(id)` holds exactly for ids fetched with custom true; a
      descriptor without the flag is not custom. */
  lemma CustomIff(fs: seq<Descriptor>, id: string)
    ensures id in Build(fs).customIds <==> exists j :: 0 <= j < |fs| && fs[j].id == id && fs[j].custom == Some(true)
  {
    CustomCached(fs, id);
  }

  /** `key in mapper` holds exactly when the key is a fetched name, the
      lower-cased form of one, or a fetched id. */
  lemma ContainsIff(fs: seq<Descriptor>, key: string)
    ensures Contains(Build(fs), key) <==>
      exists j :: 0 <= j < |fs| && (fs[j].name == key || Lower(fs[j].name) == key || fs[j].id == key)
  {
    NameKeyCached(fs, key);
    IdCached(fs, key);
    if exists j :: 0 <= j < |fs| && (fs[j].name == key || Lower(fs[j].name) == key || fs[j].id == key) {
      var j :| 0 <= j < |fs| && (fs[j].name == key || Lower(fs[j].name) == key || fs[j].id == key);
      if fs[j].id != key {
        assert NamesField(fs[j], key);
      }
    }
    if key in Build(fs).nameToId {
      var j :| 0 <= j < |fs| && NamesField(fs[j], key);
    }
  }

  /** The custom-field listing has one entry per custom id, and every entry
      is a fetched descriptor that says custom. */
  lemma CustomListing(fs: seq<Descriptor>, r: seq<Descriptor>)
    requires ListsCustomFields(Build(fs), r)
    ensures |r| == |Build(fs).customIds|
    ensures forall i :: 0 <= i < |r| ==> r[i] in fs
    ensures (set i | 0 <= i < |r| :: r[i].id) == Build(fs).customIds
  {
    var c := Build(fs);
    CachesCoherent(fs);
    assert c.customIds * c.idToField.Keys == c.customIds;
    forall i | 0 <= i < |r| ensures r[i] in fs {
      IdCached(fs, r[i].id);
      var j := LastWithIdOf(fs, r[i].id);
    }
    var ids := set i | 0 <= i < |r| :: r[i].id;
    assert ids <= c.customIds;
    IdsOfDistinct(r);
    assert |ids| == |r|;
    SubsetSameSize(ids, c.customIds);
  }

  /** Distinct ids in a list give as many ids as entries. */
  lemma {:induction false} IdsOfDistinct(r: seq<Descriptor>)
    requires forall i, j :: 0 <= i < j < |r| ==> r[i].id != r[j].id
    ensures |set i | 0 <= i < |r| :: r[i].id| == |r|
    decreases |r|
  {
    if r != [] {
      var pre := r[..|r| - 1];
      IdsOfDistinct(pre);
      var a := set i | 0 <= i < |pre| :: pre[i].id;
      var b := set i | 0 <= i < |r| :: r[i].id;
      assert b == a + {r[|r| - 1].id} by {
        forall x | x in b ensures x in a + {r[|r| - 1].id} {
          var i :| 0 <= i < |r| && r[i].id == x;
          if i < |pre| { assert pre[i].id == x; }
        }
        forall x | x in a ensures x in b {
          var i :| 0 <= i < |pre| && pre[i].id == x;
          assert r[i].id == x;
        }
      }
      assert r[|r| - 1].id !in a by {
        forall i | 0 <= i < |pre| ensures pre[i].id != r[|r| - 1].id {
          assert pre[i] == r[i];
        }
      }
    }
  }

  lemma SubsetSameSize<T>(a: set<T>, b: set<T>)
    requires a <= b && |a| == |b|
    ensures a == b
  {
    if a != b {
      var x :| x in b && x !in a;
      SubsetSize(a, b - {x});
      assert false;
    }
  }

  lemma {:induction false} SubsetSize<T>(a: set<T>, b: set<T>)
    requires a <= b
    ensures |a| <= |b|
    decreases |b|
  {
    if a != {} {
      var x :| x in a;
      SubsetSize(a - {x}, b - {x});
    }
  }

  // ---------------------------------------------------------------------
  // Key translation

  /** `translate_fields` maps each key in one of three ways: a known id is
      kept; otherwise a name that resolves case-insensitively to a non-empty
      id becomes that id; otherwise the key passes through. Whatever it
      writes is the key itself or a known id. */
  lemma TranslateKeyTiers(fs: seq<Descriptor>, k: string)
    ensures (exists j :: 0 <= j < |fs| && fs[j].id == k) ==> TranslateKey(Build(fs), k) == k
    ensures (forall j :: 0 <= j < |fs| ==> fs[j].id != k && Lower(fs[j].name) != Lower(k)) ==>
      TranslateKey(Build(fs), k) == k
    ensures TranslateKey(Build(fs), k) == k || TranslateKey(Build(fs), k) in Build(fs).idToName
    ensures TranslateKey(Build(fs), k) != k ==>
      exists j :: 0 <= j < |fs| && Lower(fs[j].name) == Lower(k) && TranslateKey(Build(fs), k) == fs[j].id
  {
    IdCached(fs, k);
    LookupIdSound(fs, k);
    var id := LookupId(Build(fs), k);
    if id.Some? {
      var j :| 0 <= j < |fs| && Lower(fs[j].name) == Lower(k) && id.value == fs[j].id;
      IdCached(fs, id.value);
    }
  }

  /** A name that no other descriptor shares (ignoring case) and that is no
      field's id translates to its descriptor's id, in any case variant, and
      translating that id back gives the name again. */
  lemma NameRoundTrip(fs: seq<Descriptor>, i: int, variant: string)
    requires 0 <= i < |fs|
    requires forall j :: 0 <= j < |fs| && j != i ==> Lower(fs[j].name) != Lower(fs[i].name)
    requires forall j :: 0 <= j < |fs| && j != i ==> fs[j].id != fs[i].id
    requires forall j :: 0 <= j < |fs| ==> fs[j].id != variant
    requires Lower(variant) == Lower(fs[i].name)
    requires fs[i].id != "" && fs[i].name != ""
    ensures TranslateKey(Build(fs), variant) == fs[i].id
    ensures NameKey(Build(fs), TranslateKey(Build(fs), variant)) == fs[i].name
  {
    IdCached(fs, variant);
    GetIdOfUniqueName(fs, i, variant);
    GetNameOfUniqueId(fs, i);
  }

  /** The keys a rebuilt dict ends up with: the images of the input keys. */
  function NewKeys(d: Dict<Value>, key: string -> string): set<string> {
    set i | 0 <= i < |d| :: key(d[i].0)
  }

  lemma NewKeysSnoc(d: Dict<Value>, key: string -> string)
    requires d != []
    ensures NewKeys(d, key) == NewKeys(d[..|d| - 1], key) + {key(d[|d| - 1].0)}
  {
    var pre := d[..|d| - 1];
    forall x | x in NewKeys(d, key) ensures x in NewKeys(pre, key) + {key(d[|d| - 1].0)} {
      var i :| 0 <= i < |d| && key(d[i].0) == x;
      if i < |pre| { assert key(pre[i].0) == x; }
    }
    forall x | x in NewKeys(pre, key) ensures x in NewKeys(d, key) {
      var i :| 0 <= i < |pre| && key(pre[i].0) == x;
      assert key(d[i].0) == x;
    }
  }

  /** Rebuilding a dict with new keys writes exactly the new keys, each once. */
  lemma {:induction false} RekeyKeys(d: Dict<Value>, key: string -> string)
    ensures KeySet(Rekey(d, key)) == NewKeys(d, key)
    ensures DistinctKeys(Rekey(d, key))
    decreases |d|
  {
    if d != [] {
      var pre, last := d[..|d| - 1], d[|d| - 1];
      RekeyKeys(pre, key);
      var r := Rekey(pre, key);
      PutKeys(r, key(last.0), last.1);
      PutDistinct(r, key(last.0), last.1);
      NewKeysSnoc(d, key);
    }
  }

  /** When no two keys collide, the rebuilt dict is the input with each key
      replaced, in the same order. */
  lemma {:induction false} RekeyInjective(d: Dict<Value>, key: string -> string)
    requires forall i, j :: 0 <= i < j < |d| ==> key(d[i].0) != key(d[j].0)
    ensures Rekey(d, key) == seq(|d|, i requires 0 <= i < |d| => (key(d[i].0), d[i].1))
    decreases |d|
  {
    if d != [] {
      var pre, last := d[..|d| - 1], d[|d| - 1];
      forall i, j | 0 <= i < j < |pre| ensures key(pre[i].0) != key(pre[j].0) {
        assert pre[i] == d[i] && pre[j] == d[j];
      }
      RekeyInjective(pre, key);
      var r := Rekey(pre, key);
      RekeyKeys(pre, key);
      assert key(last.0) !in NewKeys(pre, key) by {
        forall i | 0 <= i < |pre| ensures key(pre[i].0) != key(last.0) {
          assert pre[i] == d[i];
        }
      }
      PutKeys(r, key(last.0), last.1);
    }
  }

  /** Every value of a rebuilt dict comes from a pair of the input whose key
      maps to that value's key: no value is invented or changed. */
  lemma {:induction false} RekeyValues(d: Dict<Value>, key: string -> string)
    ensures forall p | p in Rekey(d, key) :: exists i :: 0 <= i < |d| && key(d[i].0) == p.0 && d[i].1 == p.1
    decreases |d|
  {
    if d != [] {
      var pre, last := d[..|d| - 1], d[|d| - 1];
      RekeyValues(pre, key);
      var r := Rekey(pre, key);
      forall p | p in Put(r, key(last.0), last.1)
        ensures exists i :: 0 <= i < |d| && key(d[i].0) == p.0 && d[i].1 == p.1
      {
        PutMember(r, key(last.0), last.1, p);
        if p != (key(last.0), last.1) {
          var i :| 0 <= i < |pre| && key(pre[i].0) == p.0 && pre[i].1 == p.1;
          assert d[i] == pre[i];
        } else {
          assert d[|d| - 1] == last;
        }
      }
    }
  }

  /** A pair of `Put(d, k, v)` is the new pair or a pair that was there. */
  lemma {:induction false} PutMember<V>(d: Dict<V>, k: string, v: V, p: (string, V))
    requires p in Put(d, k, v)
    ensures p == (k, v) || p in d
  {
    if d != [] && d[0].0 != k {
      if p != d[0] {
        assert p in Put(d[1..], k, v);
        PutMember(d[1..], k, v, p);
      }
    } else if d != [] {
      if p != (k, v) {
        assert p in d[1..];
      }
    }
  }

  /** The fields of the translation examples: known ids stay, resolvable
      names become ids, and the values ride along unchanged. */
  lemma TranslateFieldsKeys(fs: seq<Descriptor>, d: Dict<Value>)
    ensures KeySet(TranslateFields(Build(fs), d)) == set i | 0 <= i < |d| :: TranslateKey(Build(fs), d[i].0)
    ensures DistinctKeys(TranslateFields(Build(fs), d))
    ensures forall p | p in TranslateFields(Build(fs), d) ::
      exists i :: 0 <= i < |d| && TranslateKey(Build(fs), d[i].0) == p.0 && d[i].1 == p.1
  {
    var c := Build(fs);
    RekeyKeys(d, ToId(c));
    RekeyValues(d, ToId(c));
    assert NewKeys(d, ToId(c)) == set i | 0 <= i < |d| :: TranslateKey(c, d[i].0);
  }

  /** A dict whose keys are all known ids comes back from `translate_fields`
      unchanged. */
  lemma {:induction false} TranslatePreservesIds(fs: seq<Descriptor>, d: Dict<Value>)
    requires forall i :: 0 <= i < |d| ==> d[i].0 in Build(fs).idToName
    requires DistinctKeys(d)
    ensures TranslateFields(Build(fs), d) == d
  {
    var c := Build(fs);
    forall i | 0 <= i < |d| ensures ToId(c)(d[i].0) == d[i].0 {
    }
    RekeyInjective(d, ToId(c));
    assert TranslateFields(c, d) == seq(|d|, i requires 0 <= i < |d| => (ToId(c)(d[i].0), d[i].1));
  }

  /** `translate_field_names` writes the non-empty name of each known id and
      passes every other key through, keeping the values. */
  lemma TranslateFieldNamesKeys(fs: seq<Descriptor>, d: Dict<Value>)
    ensures KeySet(TranslateFieldNames(Build(fs), d)) == set i | 0 <= i < |d| :: NameKey(Build(fs), d[i].0)
    ensures forall k :: (forall j :: 0 <= j < |fs| ==> fs[j].id != k) ==> NameKey(Build(fs), k) == k
    ensures forall p | p in TranslateFieldNames(Build(fs), d) ::
      exists i :: 0 <= i < |d| && NameKey(Build(fs), d[i].0) == p.0 && d[i].1 == p.1
  {
    var c := Build(fs);
    RekeyKeys(d, ToName(c));
    RekeyValues(d, ToName(c));
    assert NewKeys(d, ToName(c)) == set i | 0 <= i < |d| :: NameKey(c, d[i].0);
    forall k | forall j :: 0 <= j < |fs| ==> fs[j].id != k ensures NameKey(c, k) == k {
      IdCached(fs, k);
    }
  }

  /** `fields.update(translate_fields(custom))`, the way create_issue and
      update_issue add custom fields to the standard ones. */
  function MergeCustom(c: Caches, base: Dict<Value>, custom: Dict<Value>): Dict<Value> {
    Update(base, TranslateFields(c, custom))
  }

  /** A translated custom key wins; every other key keeps its standard value,
      and no key is lost or invented. */
  lemma MergeCustomGet(c: Caches, base: Dict<Value>, custom: Dict<Value>, k: string)
    ensures Get(MergeCustom(c, base, custom), k) ==
      if k in KeySet(TranslateFields(c, custom)) then Get(TranslateFields(c, custom), k) else Get(base, k)
    ensures KeySet(MergeCustom(c, base, custom)) == KeySet(base) + KeySet(TranslateFields(c, custom))
    ensures DistinctKeys(base) ==> DistinctKeys(MergeCustom(c, base, custom))
  {
    RekeyKeys(custom, ToId(c));
    UpdateGet(base, TranslateFields(c, custom), k);
    UpdateKeys(base, TranslateFields(c, custom));
  }
}
