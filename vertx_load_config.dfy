/**
 * VertxLoadConfig: the scan that refuses two classes with the same @UniqueAddress value,
 * and init's choice of environment and configuration file. The package scan, the file
 * system and the YAML retriever are inputs: the scanned classes in scan order, and the
 * configuration files that exist, by path.
 */
module VertxLoadConfig {
  import opened Wrappers
  import opened Text

  /**
   * A scanned class: its name, the value of its @UniqueAddress annotation when it
   * carries one (the annotation's default value is ""), whether it carries @TableName,
   * and the names of its declared fields.
   */
  datatype ScannedClass = ScannedClass(name: string, uniqueAddress: Option<string>, tableName: bool, fields: seq<string>)

  /** UniqueAddressException: the class whose address was already seen, and the address. */
  datatype DuplicateAddress = DuplicateAddress(className: string, address: string)

  /** The addresses of the annotated classes, in scan order. */
  function Addresses(cs: seq<ScannedClass>): seq<string>
    decreases |cs|
  {
    if |cs| == 0 then []
    else
      var n := |cs| - 1;
      Addresses(cs[..n]) + (if cs[n].uniqueAddress.Some? then [cs[n].uniqueAddress.value] else [])
  }

  /** An address is listed iff some scanned class carries it. */
  lemma {:induction false} AddressesMembers(cs: seq<ScannedClass>, a: string)
    ensures a in Addresses(cs) <==> exists i :: 0 <= i < |cs| && cs[i].uniqueAddress == Some(a)
    decreases |cs|
  {
    if |cs| > 0 {
      var n := |cs| - 1;
      AddressesMembers(cs[..n], a);
      if exists i :: 0 <= i < |cs| && cs[i].uniqueAddress == Some(a) {
        var i :| 0 <= i < |cs| && cs[i].uniqueAddress == Some(a);
        if i < n {
          assert cs[..n][i] == cs[i];
        }
      }
      if exists i :: 0 <= i < n && cs[..n][i].uniqueAddress == Some(a) {
        var i :| 0 <= i < n && cs[..n][i].uniqueAddress == Some(a);
        assert cs[i].uniqueAddress == Some(a);
      }
    }
  }

  /** The class at d carries an address an earlier class already carries. */
  predicate DuplicateAt(cs: seq<ScannedClass>, d: int) {
    0 <= d < |cs| && cs[d].uniqueAddress.Some? && cs[d].uniqueAddress.value in Addresses(cs[..d])
  }

  /** The warnings logged for @TableName classes without a field named "id", in scan order. */
  function MissingId(cs: seq<ScannedClass>): seq<string>
    decreases |cs|
  {
    if |cs| == 0 then []
    else
      var n := |cs| - 1;
      MissingId(cs[..n]) + (if cs[n].tableName && "id" !in cs[n].fields then [cs[n].name] else [])
  }

  /** At most one warning per class, each naming a @TableName class without an "id" field. */
  lemma {:induction false} MissingIdNames(cs: seq<ScannedClass>, w: string)
    ensures |MissingId(cs)| <= |cs|
    ensures w in MissingId(cs) ==> exists i :: 0 <= i < |cs| && cs[i].name == w && cs[i].tableName && "id" !in cs[i].fields
    decreases |cs|
  {
    if |cs| > 0 {
      var n := |cs| - 1;
      MissingIdNames(cs[..n], w);
      if w in MissingId(cs[..n]) {
        var i :| 0 <= i < n && cs[..n][i].name == w && cs[..n][i].tableName && "id" !in cs[..n][i].fields;
        assert cs[i] == cs[..n][i];
      }
    }
  }

  /**
   * localClassFilter: the loop over the scanned classes with its HashSet of addresses.
   * It throws at the first class whose address was seen before; until then it logs the
   * missing-id warnings. On a normal return the set holds exactly the scanned addresses.
   */
  method LocalClassFilter(cs: seq<ScannedClass>) returns (r: Result<set<string>, DuplicateAddress>, warnings: seq<string>)
    ensures r.Ok? <==> forall d :: 0 <= d < |cs| ==> !DuplicateAt(cs, d)
    ensures r.Ok? ==> (forall a :: a in r.value <==> a in Addresses(cs)) && warnings == MissingId(cs)
    ensures r.Err? ==>
      exists d :: DuplicateAt(cs, d) && (forall e :: 0 <= e < d ==> !DuplicateAt(cs, e))
        && r.error == DuplicateAddress(cs[d].name, cs[d].uniqueAddress.value)
        && warnings == MissingId(cs[..d])
  {
    var seen: set<string> := {};
    warnings := [];
    for k := 0 to |cs|
      invariant forall a :: a in seen <==> a in Addresses(cs[..k])
      invariant forall e :: 0 <= e < k ==> !DuplicateAt(cs, e)
      invariant warnings == MissingId(cs[..k])
    {
      var c := cs[k];
      ScanStep(cs, k);
      if c.uniqueAddress.Some? {
        if c.uniqueAddress.value in seen {
          assert DuplicateAt(cs, k);
          return Err(DuplicateAddress(c.name, c.uniqueAddress.value)), warnings;
        }
        seen := seen + {c.uniqueAddress.value};
      }
      assert !DuplicateAt(cs, k);
      if c.tableName && "id" !in c.fields {
        warnings := warnings + [c.name];
      }
    }
    assert cs[..|cs|] == cs;
    r := Ok(seen);
  }

  /** The addresses and warnings of the first k + 1 classes from those of the first k. */
  lemma ScanStep(cs: seq<ScannedClass>, k: int)
    requires 0 <= k < |cs|
    ensures Addresses(cs[..k + 1])
      == Addresses(cs[..k]) + (if cs[k].uniqueAddress.Some? then [cs[k].uniqueAddress.value] else [])
    ensures MissingId(cs[..k + 1])
      == MissingId(cs[..k]) + (if cs[k].tableName && "id" !in cs[k].fields then [cs[k].name] else [])
  {
    assert cs[..k + 1][..k] == cs[..k];
  }

  /** The scan returns normally iff the scanned addresses are pairwise distinct. */
  lemma {:induction false} NoDuplicateIffDistinct(cs: seq<ScannedClass>)
    ensures (forall d :: 0 <= d < |cs| ==> !DuplicateAt(cs, d)) <==> Distinct(Addresses(cs))
    decreases |cs|
  {
    if |cs| > 0 {
      var n := |cs| - 1;
      NoDuplicateIffDistinct(cs[..n]);
      assert forall d :: 0 <= d < n ==> (DuplicateAt(cs, d) <==> DuplicateAt(cs[..n], d)) by {
        forall d | 0 <= d < n
          ensures DuplicateAt(cs, d) <==> DuplicateAt(cs[..n], d)
        {
          assert cs[..n][..d] == cs[..d];
        }
      }
      var prev := Addresses(cs[..n]);
      if cs[n].uniqueAddress.Some? {
        var a := cs[n].uniqueAddress.value;
        assert Addresses(cs) == prev + [a];
        assert DuplicateAt(cs, n) <==> a in prev;
        DistinctAppend(prev, a);
      } else {
        assert Addresses(cs) == prev;
        assert !DuplicateAt(cs, n);
      }
    }
  }

  /** Two annotated classes left at the default value "" collide. */
  lemma DefaultAddressesCollide(c1: ScannedClass, c2: ScannedClass)
    requires c1.uniqueAddress == Some("") && c2.uniqueAddress == Some("")
    ensures DuplicateAt([c1, c2], 1)
  {
    assert [c1, c2][..1] == [c1];
    assert Addresses([c1]) == [""] by {
      assert [c1][..0] == [];
    }
  }

  /** Classes without @UniqueAddress never take part in the check. */
  lemma UnannotatedNeverDuplicate(cs: seq<ScannedClass>, d: int)
    requires 0 <= d < |cs| && cs[d].uniqueAddress.None?
    ensures !DuplicateAt(cs, d)
  {
  }

  /** An unannotated class adds nothing to the addresses seen so far. */
  lemma UnannotatedKeepsAddresses(cs: seq<ScannedClass>, c: ScannedClass)
    requires c.uniqueAddress.None?
    ensures Addresses(cs + [c]) == Addresses(cs)
  {
    assert (cs + [c])[..|cs|] == cs;
  }

  /**
   * Only the addresses decide where the scan throws: @TableName and the declared fields
   * (the missing-id warning) never do.
   */
  lemma DuplicatesOnlyByAddress(cs: seq<ScannedClass>, ds: seq<ScannedClass>)
    requires |cs| == |ds| && forall i :: 0 <= i < |cs| ==> cs[i].uniqueAddress == ds[i].uniqueAddress
    ensures Addresses(cs) == Addresses(ds)
    ensures forall d :: DuplicateAt(cs, d) <==> DuplicateAt(ds, d)
  {
    PrefixAddresses(cs, ds, |cs|);
    assert cs[..|cs|] == cs && ds[..|ds|] == ds;
    forall d | 0 <= d < |cs|
      ensures DuplicateAt(cs, d) <==> DuplicateAt(ds, d)
    {
      PrefixAddresses(cs, ds, d);
    }
  }

  lemma {:induction false} PrefixAddresses(cs: seq<ScannedClass>, ds: seq<ScannedClass>, d: nat)
    requires d <= |cs| == |ds| && forall i :: 0 <= i < |cs| ==> cs[i].uniqueAddress == ds[i].uniqueAddress
    ensures Addresses(cs[..d]) == Addresses(ds[..d])
    decreases d
  {
    if d > 0 {
      PrefixAddresses(cs, ds, d - 1);
      assert cs[..d][..d - 1] == cs[..d - 1];
      assert ds[..d][..d - 1] == ds[..d - 1];
    }
  }

  /** init's default parameter. */
  const DefaultActive := "dev"

  /** The file init loads for an environment. */
  function ConfigPath(env: string): string {
    "conf/config." + env + ".yaml"
  }

  /** Different environments read different files. */
  lemma ConfigPathInjective(env1: string, env2: string)
    ensures ConfigPath(env1) == ConfigPath(env2) ==> env1 == env2
  {
    var prefix, suffix := "conf/config.", ".yaml";
    if ConfigPath(env1) == ConfigPath(env2) {
      var p1, p2 := ConfigPath(env1), ConfigPath(env2);
      assert |env1| == |env2|;
      forall i | 0 <= i < |env1|
        ensures env1[i] == env2[i]
      {
        assert p1[|prefix| + i] == env1[i];
        assert p2[|prefix| + i] == env2[i];
      }
    }
  }

  /** The environment init uses: the global active when it is not blank, else the parameter. */
  function Env(active: string, param: string): (env: string)
    ensures !IsBlank(active) ==> env == active
    ensures IsBlank(active) ==> env == param
  {
    if !IsBlank(active) then active else param
  }

  /** A configuration file's content as the retriever loads it (appConfigJson). */
  datatype ConfigFile = ConfigFile(json: string)

  /**
   * What reading an existing configuration file does: the retriever fails (malformed
   * YAML), mapTo(AppConfig) fails on the loaded JSON, or both succeed.
   */
  datatype LoadResult = RetrieveFailed | MapFailed(json: ConfigFile) | Mapped(json: ConfigFile)

  /** The exceptions init throws. */
  datatype InitError = Duplicate(address: DuplicateAddress) | RetrieveError | MapError

  /**
   * The globals init assigns: isInit, active, appConfigJson (appConfig is its mapping),
   * and whether vertx, eventBus, sharedData and the log factory have been bound.
   */
  datatype LoadState = LoadState(isInit: bool, active: string, appConfigJson: Option<ConfigFile>, contextBound: bool)

  /**
   * What init(param) throws and leaves in the globals, in the order the assignments
   * happen: a duplicate address throws before anything is assigned; then the context
   * globals are bound; a missing file returns; otherwise active is set, the file is
   * read (which may throw), appConfigJson is set, the mapping runs (which may throw)
   * and, last, isInit.
   */
  function InitOutcome(s: LoadState, param: string, dup: Option<DuplicateAddress>, files: map<string, LoadResult>)
    : (r: (Option<InitError>, LoadState))
    ensures dup.Some? ==> r == (Some(Duplicate(dup.value)), s)
    ensures dup.None? ==> r.1.contextBound && (r.0.None? || !r.0.value.Duplicate?)
    ensures var path := ConfigPath(Env(s.active, param));
      r.1.isInit == (s.isInit || (dup.None? && path in files && files[path].Mapped?))
    ensures var path := ConfigPath(Env(s.active, param));
      r.0.None? <==> dup.None? && (path in files ==> files[path].Mapped?)
    ensures r.1.(contextBound := s.contextBound) != s ==> dup.None? && ConfigPath(Env(s.active, param)) in files
  {
    if dup.Some? then (Some(Duplicate(dup.value)), s)
    else
      var bound := s.(contextBound := true);
      var env := Env(s.active, param);
      var path := ConfigPath(env);
      if path !in files then (None, bound)
      else
        match files[path]
        case RetrieveFailed => (Some(RetrieveError), bound.(active := env))
        case MapFailed(json) => (Some(MapError), bound.(active := env, appConfigJson := Some(json)))
        case Mapped(json) => (None, bound.(active := env, appConfigJson := Some(json), isInit := true))
  }

  /** A missing configuration file leaves isInit, active and appConfigJson as they were; only the context is bound. */
  lemma MissingFileChangesNothing(s: LoadState, param: string, files: map<string, LoadResult>)
    requires ConfigPath(Env(s.active, param)) !in files
    ensures InitOutcome(s, param, None, files) == (None, s.(contextBound := true))
  {
  }

  /** With the file present and mapped, init selects the environment, keeps the JSON and marks itself initialised. */
  lemma InitLoads(s: LoadState, param: string, files: map<string, LoadResult>)
    requires ConfigPath(Env(s.active, param)) in files && files[ConfigPath(Env(s.active, param))].Mapped?
    ensures
      var (err, r) := InitOutcome(s, param, None, files);
      && err.None?
      && r.isInit
      && r.active == (if IsBlank(s.active) then param else s.active)
      && r.appConfigJson == Some(files["conf/config." + r.active + ".yaml"].json)
  {
  }

  /**
   * A file that cannot be read or mapped makes init throw after active was already set
   * (and, for a mapping failure, appConfigJson too); isInit keeps its old value.
   */
  lemma LoadFailureKeepsActive(s: LoadState, param: string, files: map<string, LoadResult>)
    requires ConfigPath(Env(s.active, param)) in files && !files[ConfigPath(Env(s.active, param))].Mapped?
    ensures
      var load := files[ConfigPath(Env(s.active, param))];
      var (err, r) := InitOutcome(s, param, None, files);
      && err == Some(if load.RetrieveFailed? then RetrieveError else MapError)
      && r.isInit == s.isInit
      && r.active == (if IsBlank(s.active) then param else s.active)
      && r.appConfigJson == (if load.MapFailed? then Some(load.json) else s.appConfigJson)
  {
  }

  /** The globals of the configuration package. */
  class Globals {
    var isInit: bool
    var active: string
    var appConfigJson: Option<ConfigFile>
    var contextBound: bool

    constructor()
      ensures !isInit && active == "" && appConfigJson == None && !contextBound
    {
      isInit, active, appConfigJson, contextBound := false, "", None, false;
    }

    function State(): LoadState
      reads this
    {
      LoadState(isInit, active, appConfigJson, contextBound)
    }

    /**
     * init(param): the scan, the context, then the environment, the file check and the
     * assignments. A duplicate is reported for the first class that repeats an address,
     * with the warnings logged before it.
     */
    method Init(param: string, classes: seq<ScannedClass>, files: map<string, LoadResult>)
      returns (err: Option<InitError>, warnings: seq<string>)
      modifies this
      ensures var dup := if err.Some? && err.value.Duplicate? then Some(err.value.address) else None;
        (err, State()) == InitOutcome(old(State()), param, dup, files)
      ensures (err.Some? && err.value.Duplicate?) <==> !forall d :: 0 <= d < |classes| ==> !DuplicateAt(classes, d)
      ensures err.Some? && err.value.Duplicate? ==>
        exists d :: DuplicateAt(classes, d) && (forall e :: 0 <= e < d ==> !DuplicateAt(classes, e))
          && err.value.address == DuplicateAddress(classes[d].name, classes[d].uniqueAddress.value)
          && warnings == MissingId(classes[..d])
      ensures !(err.Some? && err.value.Duplicate?) ==> warnings == MissingId(classes)
    {
      var scan;
      scan, warnings := LocalClassFilter(classes);
      if scan.Err? {
        return Some(Duplicate(scan.error)), warnings;
      }
      contextBound := true;
      err := None;
      var env := param;
      if !IsBlank(active) {
        env := active;
      }
      var path := "conf/config." + env + ".yaml";
      if path !in files {
        return;
      }
      active := env;
      match files[path] {
        case RetrieveFailed =>
          return Some(RetrieveError), warnings;
        case MapFailed(json) =>
          appConfigJson := Some(json);
          return Some(MapError), warnings;
        case Mapped(json) =>
          appConfigJson := Some(json);
          isInit := true;
      }
    }
  }
}
