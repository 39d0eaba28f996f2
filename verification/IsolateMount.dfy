/** Mounting inside the isolate: every Plugin of the identity once, in identity order. */
module IsolateMount {
  import opened Wrappers

  /** One Plugin of the identity. `declared` is what its module declares, absent when there
      is no module or any of its declarations is refused; services are given by name. */
  datatype Identity<+S> = Identity(id: string, consumes: seq<string>, declared: Option<map<string, S>>)

  datatype Why = NotDeclared | NotProvided(service: string)

  datatype Mounted<+S> = Mounted(id: string, ok: bool, why: Option<Why>, services: map<string, S>)

  // ---- what a Plugin is handed, stated by the Plugins before it ------------------------

  /** The provider of `name` among the first `n`: the last mounted one that declares it. */
  function ProviderOf<S>(plugins: seq<Identity<S>>, n: nat, name: string): Option<nat>
    requires n <= |plugins|
    decreases n, 0
  {
    if n == 0 then None
    else if Mounts(plugins, n - 1) && name in plugins[n - 1].declared.value then Some(n - 1)
    else ProviderOf(plugins, n - 1, name)
  }

  /** Plugin `k` mounts: it declares itself correctly and all it consumes is provided before it. */
  predicate Mounts<S>(plugins: seq<Identity<S>>, k: nat)
    requires k < |plugins|
    ensures Mounts(plugins, k) ==> plugins[k].declared.Some?
    decreases k, 1
  {
    && plugins[k].declared.Some?
    && forall name :: name in plugins[k].consumes ==> ProviderOf(plugins, k, name).Some?
  }

  lemma {:induction false} ProviderIs<S>(plugins: seq<Identity<S>>, n: nat, name: string)
    requires n <= |plugins|
    ensures var p := ProviderOf(plugins, n, name);
      if p.Some? then
        && p.value < n && Mounts(plugins, p.value) && name in plugins[p.value].declared.value
        && forall j :: p.value < j < n && Mounts(plugins, j) ==> name !in plugins[j].declared.value
      else forall j :: 0 <= j < n && Mounts(plugins, j) ==> name !in plugins[j].declared.value
  {
    if n > 0 && !(Mounts(plugins, n - 1) && name in plugins[n - 1].declared.value) {
      ProviderIs(plugins, n - 1, name);
    }
  }

  ghost predicate Provided<S>(plugins: seq<Identity<S>>, n: nat, provided: map<string, S>)
    requires n <= |plugins|
  {
    forall name ::
      && (name in provided <==> ProviderOf(plugins, n, name).Some?)
      && (name in provided ==>
            var p := ProviderOf(plugins, n, name).value;
            && p < n && Mounts(plugins, p)
            && name in plugins[p].declared.value && provided[name] == plugins[p].declared.value[name])
  }

  /** Plugin `k` as it should be mounted: handed, of all it consumes, what its provider declared. */
  ghost predicate MountedRight<S>(plugins: seq<Identity<S>>, k: nat, m: Mounted<S>)
    requires k < |plugins|
  {
    && m.id == plugins[k].id
    && (m.ok <==> Mounts(plugins, k))
    && (m.ok <==> m.why == None)
    && (m.ok ==> forall name :: name in m.services <==> name in plugins[k].consumes)
    && forall name :: name in m.services ==>
         var p := ProviderOf(plugins, k, name);
         && p.Some? && p.value < k && Mounts(plugins, p.value) && name in plugins[p.value].declared.value
         && m.services[name] == plugins[p.value].declared.value[name]
  }

  lemma MountedOnce<S>(plugins: seq<Identity<S>>, k: nat, provided: map<string, S>)
    requires k < |plugins| && Provided(plugins, k, provided)
    ensures Mounts(plugins, k) ==> Provided(plugins, k + 1, provided + plugins[k].declared.value)
    ensures !Mounts(plugins, k) ==> Provided(plugins, k + 1, provided)
  {
  }

  method MountOne<S>(plugins: seq<Identity<S>>, k: nat, provided: map<string, S>) returns (m: Mounted<S>)
    requires k < |plugins| && Provided(plugins, k, provided)
    ensures MountedRight(plugins, k, m)
  {
    var p := plugins[k];
    m := Mounted(p.id, false, Some(NotDeclared), map[]);
    if p.declared.None? { return; }
    for i := 0 to |p.consumes|
      invariant !m.ok && m.id == p.id && m.why.Some?
      invariant forall name :: name in m.services <==> name in p.consumes[..i]
      invariant forall name :: name in m.services ==> name in provided && m.services[name] == provided[name]
    {
      var name := p.consumes[i];
      if name !in provided {
        return m.(why := Some(NotProvided(name)));
      }
      m := m.(services := m.services[name := provided[name]]);
      assert p.consumes[..i + 1] == p.consumes[..i] + [name];
    }
    assert p.consumes[..|p.consumes|] == p.consumes;
    m := m.(ok := true, why := None);
  }

  method MountAll<S>(plugins: seq<Identity<S>>) returns (mounted: seq<Mounted<S>>)
    ensures |mounted| == |plugins|
    ensures forall k :: 0 <= k < |plugins| ==> MountedRight(plugins, k, mounted[k])
  {
    mounted := [];
    var provided: map<string, S> := map[];
    for k := 0 to |plugins|
      invariant |mounted| == k && Provided(plugins, k, provided)
      invariant forall j :: 0 <= j < k ==> MountedRight(plugins, j, mounted[j])
    {
      var m := MountOne(plugins, k, provided);
      MountedOnce(plugins, k, provided);
      if m.ok {
        provided := provided + plugins[k].declared.value;
      }
      mounted := mounted + [m];
    }
  }

  // ---- an identity in dependency order mounts whole ------------------------------------

  ghost predicate DeclaredBefore<S>(plugins: seq<Identity<S>>, k: nat, name: string)
    requires k <= |plugins|
  {
    exists j :: 0 <= j < k && plugins[j].declared.Some? && name in plugins[j].declared.value
  }

  /** Every module declares itself correctly, and what each consumes an earlier one declares. */
  ghost predicate InOrder<S>(plugins: seq<Identity<S>>) {
    forall k {:trigger plugins[k]} :: 0 <= k < |plugins| ==>
      plugins[k].declared.Some? && forall name :: name in plugins[k].consumes ==> DeclaredBefore(plugins, k, name)
  }

  ghost predicate AllMount<S>(plugins: seq<Identity<S>>) {
    forall k :: 0 <= k < |plugins| ==> Mounts(plugins, k)
  }

  /** All mount exactly when the identity is in dependency order and every module is sound. */
  lemma AllMountInOrder<S>(plugins: seq<Identity<S>>)
    ensures AllMount(plugins) <==> InOrder(plugins)
  {
    if InOrder(plugins) {
      forall k | 0 <= k < |plugins|
        ensures Mounts(plugins, k)
      {
        OrderMounts(plugins, k);
      }
    }
    if AllMount(plugins) {
      forall k, name | 0 <= k < |plugins| && name in plugins[k].consumes
        ensures DeclaredBefore(plugins, k, name)
      {
        assert Mounts(plugins, k);
        ProviderIs(plugins, k, name);
        assert Mounts(plugins, ProviderOf(plugins, k, name).value);
      }
      assert forall k {:trigger plugins[k]} :: 0 <= k < |plugins| ==> Mounts(plugins, k);
    }
  }

  lemma {:induction false} OrderMounts<S>(plugins: seq<Identity<S>>, k: nat)
    requires InOrder(plugins) && k < |plugins|
    ensures Mounts(plugins, k)
  {
    assert plugins[k].declared.Some?;
    forall name | name in plugins[k].consumes
      ensures ProviderOf(plugins, k, name).Some?
    {
      var j :| 0 <= j < k && plugins[j].declared.Some? && name in plugins[j].declared.value;
      OrderMounts(plugins, j);
      ProviderIs(plugins, k, name);
    }
  }
}
