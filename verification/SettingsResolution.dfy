/**
 Effective UI settings, resolved twice: the server overwrites from the lowest layer up, the browser searches from
 the highest layer down for the first usable value.
 */
module SettingsResolution {
  import opened Prelude

  datatype Key = Theme | ButtonPreset | AlertPreset | OverlayPreset | TablePreset | PrintPreset

  type Patch = map<Key, string>

  datatype Scope = BuiltIn | Platform | Tenant | User

  /** The four layers; all but the built-in one may be missing, and any may hold only some keys. */
  datatype Layers = Layers(builtIn: Patch, platform: Option<Patch>, tenant: Option<Patch>, user: Option<Patch>)

  datatype Resolved = Resolved(settings: map<Key, string>, origins: map<Key, Scope>)

  type Validator = (Key, string) -> bool

  function LayerOf(l: Layers, scope: Scope): Option<Patch> {
    match scope
    case User => l.user
    case Tenant => l.tenant
    case Platform => l.platform
    case BuiltIn => Some(l.builtIn)
  }

  predicate Holds(l: Layers, scope: Scope, key: Key) {
    LayerOf(l, scope).Some? && key in LayerOf(l, scope).value
  }

  predicate Complete(p: Patch) {
    forall k: Key :: k in p
  }

  // ---- from the lowest layer up ----------------------------------------------------------------------------------

  function Overwritten(r: Resolved, layer: Option<Patch>, scope: Scope): Resolved {
    match layer
    case None => r
    case Some(p) => Resolved(r.settings + p, r.origins + map k | k in p :: scope)
  }

  function Base(l: Layers): Resolved {
    Resolved(l.builtIn, map k | k in l.builtIn :: BuiltIn)
  }

  function Overlay(l: Layers): Resolved {
    Overwritten(Overwritten(Overwritten(Base(l), l.platform, Platform), l.tenant, Tenant), l.user, User)
  }

  /** A dictionary part-way through being overwritten: all of the layer's items but those left have been copied. */
  ghost predicate Copied<V>(after: map<Key, V>, before: map<Key, V>, layer: map<Key, V>, left: set<Key>) {
    && (forall k: Key :: k in after <==> k in before || (k in layer && k !in left))
    && (forall k: Key | k in after :: after[k] == if k in layer && k !in left then layer[k] else before[k])
  }

  lemma CopyNext<V>(after: map<Key, V>, before: map<Key, V>, layer: map<Key, V>, left: set<Key>, key: Key)
    requires Copied(after, before, layer, left) && key in left && left <= layer.Keys
    ensures Copied(after[key := layer[key]], before, layer, left - {key})
  {
  }

  lemma CopyDone<V>(after: map<Key, V>, before: map<Key, V>, layer: map<Key, V>)
    requires Copied(after, before, layer, {})
    ensures after == before + layer
  {
  }

  /** One layer's items overwrite what is there, in whatever order the dictionary yields them. */
  method OverwriteWith(r: Resolved, layer: Patch, scope: Scope) returns (after: Resolved)
    ensures after == Overwritten(r, Some(layer), scope)
  {
    var values, origins := r.settings, r.origins;
    ghost var scopes := map k | k in layer :: scope;
    var left := layer.Keys;
    assert Copied(values, r.settings, layer, left) && Copied(origins, r.origins, scopes, left);
    hide Copied;
    while left != {}
      invariant left <= layer.Keys
      invariant Copied(values, r.settings, layer, left) && Copied(origins, r.origins, scopes, left)
      decreases |left|
    {
      var key :| key in left;
      CopyNext(values, r.settings, layer, left, key);
      CopyNext(origins, r.origins, scopes, left, key);
      values, origins := values[key := layer[key]], origins[key := scope];
      left := left - {key};
    }
    CopyDone(values, r.settings, layer);
    CopyDone(origins, r.origins, scopes);
    after := Resolved(values, origins);
  }

  /** The server's resolution. */
  method ResolveOnServer(l: Layers) returns (r: Resolved)
    ensures r == Overlay(l)
  {
    r := Base(l);
    if l.platform.Some? {
      r := OverwriteWith(r, l.platform.value, Platform);
    }
    if l.tenant.Some? {
      r := OverwriteWith(r, l.tenant.value, Tenant);
    }
    if l.user.Some? {
      r := OverwriteWith(r, l.user.value, User);
    }
  }

  // ---- from the highest layer down --------------------------------------------------------------------------------

  const PRECEDENCE := [User, Tenant, Platform, BuiltIn]

  predicate Usable(l: Layers, valid: Validator, scope: Scope, key: Key) {
    Holds(l, scope, key) && valid(key, LayerOf(l, scope).value[key])
  }

  function FirstUsable(l: Layers, valid: Validator, key: Key, scopes: seq<Scope>): (found: Option<Scope>)
    ensures found.Some? ==> Usable(l, valid, found.value, key)
  {
    if scopes == [] then None
    else if Usable(l, valid, scopes[0], key) then Some(scopes[0])
    else FirstUsable(l, valid, key, scopes[1..])
  }

  function Chosen(l: Layers, valid: Validator, defaults: Patch, key: Key): (string, Scope)
    requires Complete(defaults)
  {
    match FirstUsable(l, valid, key, PRECEDENCE)
    case Some(scope) => (LayerOf(l, scope).value[key], scope)
    case None => (defaults[key], BuiltIn)
  }

  function Searched(l: Layers, valid: Validator, defaults: Patch): Resolved
    requires Complete(defaults)
  {
    Resolved(map k | k in l.builtIn :: Chosen(l, valid, defaults, k).0,
      map k | k in l.builtIn :: Chosen(l, valid, defaults, k).1)
  }

  /** The browser's resolution: for each key of the built-in layer, in its order, search and stop at the first hit. */
  method ResolveInBrowser(l: Layers, keys: seq<Key>, valid: Validator, defaults: Patch) returns (r: Resolved)
    requires Complete(defaults) && (set k | k in keys) == l.builtIn.Keys
    ensures r == Searched(l, valid, defaults)
  {
    var settings: map<Key, string>, origin: map<Key, Scope> := map[], map[];
    for i := 0 to |keys|
      invariant settings.Keys == origin.Keys == set k | k in keys[..i]
      invariant forall k | k in settings :: (settings[k], origin[k]) == Chosen(l, valid, defaults, k)
    {
      var key := keys[i];
      var found: Option<Scope> := None;
      for j := 0 to |PRECEDENCE|
        invariant found == None
        invariant FirstUsable(l, valid, key, PRECEDENCE) == FirstUsable(l, valid, key, PRECEDENCE[j..])
      {
        if Usable(l, valid, PRECEDENCE[j], key) {
          found := Some(PRECEDENCE[j]);
          break;
        }
        assert PRECEDENCE[j..][1..] == PRECEDENCE[j + 1..];
      }
      if found.Some? {
        settings, origin := settings[key := LayerOf(l, found.value).value[key]], origin[key := found.value];
      } else {
        settings, origin := settings[key := defaults[key]], origin[key := BuiltIn];
      }
      assert keys[..i + 1] == keys[..i] + [key];
    }
    assert keys[..|keys|] == keys;
    r := Resolved(settings, origin);
  }

  // ---- the two agree ----------------------------------------------------------------------------------------------

  /** The highest layer that holds a key. */
  function Highest(l: Layers, key: Key): Scope {
    if Holds(l, User, key) then User
    else if Holds(l, Tenant, key) then Tenant
    else if Holds(l, Platform, key) then Platform
    else BuiltIn
  }

  predicate Within(layer: Option<Patch>, key: Key) {
    layer.Some? && key in layer.value
  }

  lemma OverwrittenAt(r: Resolved, layer: Option<Patch>, scope: Scope, key: Key)
    requires key in r.settings && key in r.origins
    ensures var after := Overwritten(r, layer, scope);
      && key in after.settings && key in after.origins
      && after.settings[key] == (if Within(layer, key) then layer.value[key] else r.settings[key])
      && after.origins[key] == (if Within(layer, key) then scope else r.origins[key])
  {
  }

  lemma BaseAt(l: Layers, key: Key)
    requires key in l.builtIn
    ensures key in Base(l).settings && key in Base(l).origins
    ensures Base(l).settings[key] == l.builtIn[key] && Base(l).origins[key] == BuiltIn
  {
  }

  /** Overwriting upwards leaves each key with the value and the name of the highest layer that holds it. */
  lemma OverlayTakesHighest(l: Layers, key: Key)
    requires key in l.builtIn
    ensures var r := Overlay(l); var scope := Highest(l, key);
      && key in r.settings && key in r.origins
      && Holds(l, scope, key) && r.settings[key] == LayerOf(l, scope).value[key] && r.origins[key] == scope
  {
    hide Overwritten, Base;
    BaseAt(l, key);
    OverwrittenAt(Base(l), l.platform, Platform, key);
    var one := Overwritten(Base(l), l.platform, Platform);
    OverwrittenAt(one, l.tenant, Tenant, key);
    var two := Overwritten(one, l.tenant, Tenant);
    OverwrittenAt(two, l.user, User, key);
  }

  lemma OverlayKeys(l: Layers)
    requires Complete(l.builtIn)
    ensures forall k: Key :: k in Overlay(l).settings && k in Overlay(l).origins
  {
    hide Overlay;
    forall k: Key
      ensures k in Overlay(l).settings && k in Overlay(l).origins
    {
      OverlayTakesHighest(l, k);
    }
  }

  function ValidPart(p: Patch, valid: Validator): Patch {
    map k | k in p && valid(k, p[k]) :: p[k]
  }

  function OptionalValidPart(p: Option<Patch>, valid: Validator): Option<Patch> {
    match p case None => None case Some(q) => Some(ValidPart(q, valid))
  }

  /** The layers without their invalid entries; an invalid built-in entry gives way to the default. */
  function Cleaned(l: Layers, valid: Validator, defaults: Patch): Layers
    requires Complete(defaults)
  {
    Layers(map k | k in l.builtIn :: if valid(k, l.builtIn[k]) then l.builtIn[k] else defaults[k],
           OptionalValidPart(l.platform, valid), OptionalValidPart(l.tenant, valid), OptionalValidPart(l.user, valid))
  }

  lemma FirstUsableIs(l: Layers, valid: Validator, key: Key)
    ensures FirstUsable(l, valid, key, PRECEDENCE) ==
            if Usable(l, valid, User, key) then Some(User)
            else if Usable(l, valid, Tenant, key) then Some(Tenant)
            else if Usable(l, valid, Platform, key) then Some(Platform)
            else if Usable(l, valid, BuiltIn, key) then Some(BuiltIn)
            else None
  {
    hide Usable;
    assert PRECEDENCE[1..] == [Tenant, Platform, BuiltIn];
    assert [Tenant, Platform, BuiltIn][1..] == [Platform, BuiltIn];
    assert [Platform, BuiltIn][1..] == [BuiltIn];
    assert FirstUsable(l, valid, key, [BuiltIn]) == if Usable(l, valid, BuiltIn, key) then Some(BuiltIn) else None;
    assert FirstUsable(l, valid, key, [Platform, BuiltIn]) ==
           if Usable(l, valid, Platform, key) then Some(Platform) else FirstUsable(l, valid, key, [BuiltIn]);
    assert FirstUsable(l, valid, key, [Tenant, Platform, BuiltIn]) ==
           if Usable(l, valid, Tenant, key) then Some(Tenant) else FirstUsable(l, valid, key, [Platform, BuiltIn]);
  }

  /** For one key: what the search chooses is what the cleaned overlay ends up with. */
  lemma ChosenIsCleaned(l: Layers, valid: Validator, defaults: Patch, key: Key)
    requires Complete(defaults) && key in l.builtIn
    ensures var r := Overlay(Cleaned(l, valid, defaults));
      && key in r.settings && key in r.origins
      && (r.settings[key], r.origins[key]) == Chosen(l, valid, defaults, key)
  {
    hide Overlay, FirstUsable;
    FirstUsableIs(l, valid, key);
    OverlayTakesHighest(Cleaned(l, valid, defaults), key);
  }

  /** The browser's result is the server's resolution of the layers with their invalid entries removed. */
  lemma SearchIsCleanedOverlay(l: Layers, valid: Validator, defaults: Patch)
    requires Complete(l.builtIn) && Complete(defaults)
    ensures Searched(l, valid, defaults) == Overlay(Cleaned(l, valid, defaults))
  {
    hide Overlay, Chosen;
    var clean := Cleaned(l, valid, defaults);
    assert Complete(clean.builtIn);
    OverlayKeys(clean);
    forall k | k in l.builtIn
      ensures k in Overlay(clean).settings && k in Overlay(clean).origins
      ensures (Overlay(clean).settings[k], Overlay(clean).origins[k]) == Chosen(l, valid, defaults, k)
    {
      ChosenIsCleaned(l, valid, defaults, k);
    }
  }

  /** For one key: the highest layer that holds it holds a usable value, or only the built-in default is in play. */
  predicate Settled(l: Layers, valid: Validator, defaults: Patch, key: Key)
    requires key in l.builtIn && Complete(defaults)
  {
    var scope := Highest(l, key);
    Usable(l, valid, scope, key) || (scope == BuiltIn && l.builtIn[key] == defaults[key])
  }

  lemma ChosenIsHighestIff(l: Layers, valid: Validator, defaults: Patch, key: Key)
    requires key in l.builtIn && Complete(defaults)
    ensures Holds(l, Highest(l, key), key)
    ensures (LayerOf(l, Highest(l, key)).value[key], Highest(l, key)) == Chosen(l, valid, defaults, key)
            <==> Settled(l, valid, defaults, key)
  {
    hide FirstUsable;
    FirstUsableIs(l, valid, key);
  }

  /** The two resolutions of the same layers agree, values and origins, exactly when every key is settled. */
  lemma ResolutionsAgreeIff(l: Layers, valid: Validator, defaults: Patch)
    requires Complete(l.builtIn) && Complete(defaults)
    ensures Searched(l, valid, defaults) == Overlay(l) <==> forall k: Key :: Settled(l, valid, defaults, k)
  {
    hide Overlay, Settled, Chosen, Highest, Holds, LayerOf;
    OverlayKeys(l);
    var s, o := Searched(l, valid, defaults), Overlay(l);
    forall k: Key
      ensures (s.settings[k] == o.settings[k] && s.origins[k] == o.origins[k]) <==> Settled(l, valid, defaults, k)
    {
      OverlayTakesHighest(l, k);
      ChosenIsHighestIff(l, valid, defaults, k);
    }
    if forall k: Key :: Settled(l, valid, defaults, k) {
      assert s.settings == o.settings;
      assert s.origins == o.origins;
    }
  }

  predicate AllValid(p: Option<Patch>, valid: Validator) {
    p.Some? ==> forall k | k in p.value :: valid(k, p.value[k])
  }

  /** So they agree on all layers whose every entry is valid. */
  lemma ValidLayersAgree(l: Layers, valid: Validator, defaults: Patch)
    requires Complete(l.builtIn) && Complete(defaults)
    requires forall scope: Scope :: AllValid(LayerOf(l, scope), valid)
    ensures Searched(l, valid, defaults) == Overlay(l)
  {
    forall k: Key
      ensures Settled(l, valid, defaults, k)
    {
      assert AllValid(LayerOf(l, Highest(l, k)), valid);
      assert Holds(l, Highest(l, k), k);
    }
    ResolutionsAgreeIff(l, valid, defaults);
  }
}
