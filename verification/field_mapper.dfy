/** The FieldMapper object: a lazily filled cache of the Jira field list.
    The client's `fields()` call is a `FieldSource` object that hands out its
    current snapshot and counts how often it was asked. */
module FieldMappers {
  import opened Values
  import opened Strings
  import opened FieldCaches

  /** The part of the Jira client FieldMapper talks to: `fields()`. */
  class FieldSource {
    /** The field list Jira would return right now. */
    var snapshot: seq<Descriptor>
    /** How many times `fields()` has been called. */
    var calls: nat

    constructor (fs: seq<Descriptor>)
      ensures snapshot == fs && calls == 0
    {
      snapshot := fs;
      calls := 0;
    }

    /** `jira.fields()`. */
    method Fields() returns (fs: seq<Descriptor>)
      modifies this`calls
      ensures fs == snapshot && calls == old(calls) + 1
    {
      fs := snapshot;
      calls := calls + 1;
    }

    /** Fields are added or changed on the Jira side. */
    method Replace(fs: seq<Descriptor>)
      modifies this`snapshot
      ensures snapshot == fs
    {
      snapshot := fs;
    }
  }

  class FieldMapper {
    const jira: FieldSource
    var fields: seq<Descriptor>
    var nameToId: map<string, string>
    var idToName: map<string, string>
    var idToField: map<string, Descriptor>
    var customIds: set<string>
    var initialized: bool

    /** The four caches as one value. */
    function Cached(): Caches
      reads this
    {
      Caches(nameToId, idToName, idToField, customIds)
    }

    /** The caches are always those `_build_caches` derives from `fields`. */
    ghost predicate Valid()
      reads this
    {
      Cached() == Build(fields)
    }

    /** What every public operation promises about fetching: afterwards the
        mapper is initialized; if it already was, nothing was fetched and the
        field list is unchanged; otherwise `fields()` was called exactly once
        and its result is the field list. */
    twostate predicate Loaded()
      reads this, jira
    {
      && initialized && Valid()
      && jira.snapshot == old(jira.snapshot)
      && if old(initialized) then fields == old(fields) && jira.calls == old(jira.calls)
         else fields == old(jira.snapshot) && jira.calls == old(jira.calls) + 1
    }

    /** A new mapper holds no fields and has fetched nothing. */
    constructor (jira: FieldSource)
      ensures this.jira == jira && !initialized && fields == [] && Valid()
      ensures Cached() == Empty
    {
      this.jira := jira;
      fields := [];
      nameToId := map[];
      idToName := map[];
      idToField := map[];
      customIds := {};
      initialized := false;
    }

    /** `initialize`: a no-op once initialized; otherwise one fetch and a
        rebuild of the caches. */
    method Initialize()
      requires Valid()
      modifies this, jira`calls
      ensures Loaded()
    {
      if initialized {
        return;
      }
      var fs := jira.Fields();
      fields := fs;
      BuildCaches();
      initialized := true;
    }

    /** `_build_caches`: clear the four caches and refill them from `fields`. */
    method BuildCaches()
      modifies this`nameToId, this`idToName, this`idToField, this`customIds
      ensures Valid()
    {
      nameToId := map[];
      idToName := map[];
      idToField := map[];
      customIds := {};
      for i := 0 to |fields|
        invariant Cached() == Build(fields[..i])
      {
        var f := fields[i];
        nameToId := nameToId[f.name := f.id];
        nameToId := nameToId[Lower(f.name) := f.id];
        idToName := idToName[f.id := f.name];
        idToField := idToField[f.id := f];
        if IsCustom(f) {
          customIds := customIds + {f.id};
        }
        assert fields[..i + 1][..i] == fields[..i];
      }
      assert fields[..|fields|] == fields;
    }

    /** `refresh`: always fetch again and rebuild from the new list. */
    method Refresh()
      requires Valid()
      modifies this, jira`calls
      ensures initialized && Valid()
      ensures fields == old(jira.snapshot) && jira.calls == old(jira.calls) + 1
    {
      initialized := false;
      Initialize();
    }

    /** `_ensure_initialized`. */
    method EnsureInitialized()
      requires Valid()
      modifies this, jira`calls
      ensures Loaded()
    {
      if !initialized {
        Initialize();
      }
    }

    /** `get_id`: found exactly when some fetched name equals `name` up to
        case, and then it is the id of such a field. */
    method GetId(name: string) returns (r: Option<string>)
      requires Valid()
      modifies this, jira`calls
      ensures Loaded()
      ensures r == LookupId(Cached(), name)
      ensures r.Some? <==> exists j :: 0 <= j < |fields| && Lower(fields[j].name) == Lower(name)
      ensures r.Some? ==> exists j :: 0 <= j < |fields| && Lower(fields[j].name) == Lower(name) && r.value == fields[j].id
    {
      EnsureInitialized();
      if name in nameToId && nameToId[name] != "" {
        r := Some(nameToId[name]);
      } else if Lower(name) in nameToId {
        r := Some(nameToId[Lower(name)]);
      } else {
        r := None;
      }
      LookupIdSound(fields, name);
    }

    /** `get_name`: None for an id no field has. */
    method GetName(id: string) returns (r: Option<string>)
      requires Valid()
      modifies this, jira`calls
      ensures Loaded()
      ensures r == LookupName(Cached(), id)
      ensures r.Some? <==> exists j :: 0 <= j < |fields| && fields[j].id == id
    {
      EnsureInitialized();
      r := if id in idToName then Some(idToName[id]) else None;
      GetNameAndField(fields, id);
    }

    /** `get_field`: None for an id no field has. */
    method GetField(id: string) returns (r: Option<Descriptor>)
      requires Valid()
      modifies this, jira`calls
      ensures Loaded()
      ensures r == LookupField(Cached(), id)
      ensures r.Some? ==> r.value.id == id && r.value in fields
    {
      EnsureInitialized();
      r := if id in idToField then Some(idToField[id]) else None;
      GetNameAndField(fields, id);
      CachesCoherent(fields);
      if r.Some? {
        var j := LastWithIdOf(fields, id);
      }
    }

    /** `is_custom_field`: true exactly for ids fetched with custom true. */
    method IsCustomField(id: string) returns (r: bool)
      requires Valid()
      modifies this, jira`calls
      ensures Loaded()
      ensures r <==> exists j :: 0 <= j < |fields| && fields[j].id == id && fields[j].custom == Some(true)
    {
      EnsureInitialized();
      r := id in customIds;
      CustomIff(fields, id);
    }

    /** `get_custom_fields`: each custom id's descriptor once, in the order
        the set happens to be walked. */
    method GetCustomFields() returns (r: seq<Descriptor>)
      requires Valid()
      modifies this, jira`calls
      ensures Loaded()
      ensures ListsCustomFields(Cached(), r)
      ensures |r| == |customIds| && forall i :: 0 <= i < |r| ==> r[i] in fields
    {
      EnsureInitialized();
      CachesCoherent(fields);
      r := CollectCustom(customIds, idToField);
      assert ListsCustomFields(Cached(), r);
      CustomListing(fields, r);
    }

    /** `get_all_fields`: a copy of the fetched list. */
    method GetAllFields() returns (r: seq<Descriptor>)
      requires Valid()
      modifies this, jira`calls
      ensures Loaded()
      ensures r == fields
    {
      EnsureInitialized();
      r := fields;
    }

    /** `translate_fields`: a known id stays, a resolvable name becomes its id,
        anything else passes through; values are never changed. */
    method TranslateFields(d: Dict<Value>) returns (r: Dict<Value>)
      requires Valid()
      modifies this, jira`calls
      ensures Loaded()
      ensures r == FieldCaches.TranslateFields(Cached(), d)
      ensures forall p | p in r :: exists i :: 0 <= i < |d| && TranslateKey(Cached(), d[i].0) == p.0 && d[i].1 == p.1
    {
      EnsureInitialized();
      r := [];
      for i := 0 to |d|
        invariant Loaded()
        invariant r == Rekey(d[..i], ToId(Cached()))
      {
        var key, value := d[i].0, d[i].1;
        if key in idToName {
          r := Put(r, key, value);
        } else {
          var id := GetId(key);
          if id.Some? && id.value != "" {
            r := Put(r, id.value, value);
          } else {
            r := Put(r, key, value);
          }
        }
        assert d[..i + 1][..i] == d[..i];
      }
      assert d[..|d|] == d;
      TranslateFieldsKeys(fields, d);
    }

    /** `translate_field_names`: a known id with a non-empty name becomes that
        name, anything else passes through; values are never changed. */
    method TranslateFieldNames(d: Dict<Value>) returns (r: Dict<Value>)
      requires Valid()
      modifies this, jira`calls
      ensures Loaded()
      ensures r == FieldCaches.TranslateFieldNames(Cached(), d)
      ensures forall p | p in r :: exists i :: 0 <= i < |d| && NameKey(Cached(), d[i].0) == p.0 && d[i].1 == p.1
    {
      EnsureInitialized();
      r := [];
      for i := 0 to |d|
        invariant Loaded()
        invariant r == Rekey(d[..i], ToName(Cached()))
      {
        var key, value := d[i].0, d[i].1;
        var name := GetName(key);
        if name.Some? && name.value != "" {
          r := Put(r, name.value, value);
        } else {
          r := Put(r, key, value);
        }
        assert d[..i + 1][..i] == d[..i];
      }
      assert d[..|d|] == d;
      TranslateFieldNamesKeys(fields, d);
    }

    /** `len(mapper)`: the number of fetched fields. */
    method Length() returns (n: nat)
      requires Valid()
      modifies this, jira`calls
      ensures Loaded()
      ensures n == |fields|
    {
      EnsureInitialized();
      n := |fields|;
    }

    /** `key in mapper`: a fetched name, its lower-cased form, or an id. */
    method Has(key: string) returns (r: bool)
      requires Valid()
      modifies this, jira`calls
      ensures Loaded()
      ensures r <==> exists j :: 0 <= j < |fields| && (fields[j].name == key || Lower(fields[j].name) == key || fields[j].id == key)
    {
      EnsureInitialized();
      r := key in nameToId || key in idToName;
      ContainsIff(fields, key);
    }
  }

  /** A fresh mapper fetches on its first lookup and never again after. */
  method LazyFetchOnce(fs: seq<Descriptor>, a: string, b: string)
    returns (calls: nat)
    ensures calls == 1
  {
    var jira := new FieldSource(fs);
    var m := new FieldMapper(jira);
    var x := m.GetId(a);
    var y := m.GetName(b);
    var z := m.Has(a);
    calls := jira.calls;
  }

  /** After `refresh` the mapper answers from the new list only: its length
      is the new count and a name known only before no longer resolves. */
  method RefreshForgets(before: seq<Descriptor>, after: seq<Descriptor>, gone: string)
    returns (n: nat, r: Option<string>)
    requires forall j :: 0 <= j < |after| ==> Lower(after[j].name) != Lower(gone)
    ensures n == |after| && r == None
  {
    var jira := new FieldSource(before);
    var m := new FieldMapper(jira);
    m.Initialize();
    jira.Replace(after);
    m.Refresh();
    n := m.Length();
    r := m.GetId(gone);
  }
}
