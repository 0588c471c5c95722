/** The volumes of a pod and the mounts of its containers. */
module PodSpecs {
  import opened Options
  import opened Seqs

  datatype VolumeConfig = VolumeConfig(
    name: string, mountPath: string, subPath: string, readOnly: bool,
    secret: string, configMap: string, emptyDir: bool, emptyDirSize: string, claim: string,
    hostPath: string, hostPathType: string,
    csiDriver: string, csiAttributes: map<string, string>, csiSecret: string,
    mountPropagation: string)

  datatype Container = Container(name: string, volumes: seq<VolumeConfig>)

  datatype InitContainer = InitContainer(name: string, volumeMounts: seq<string>)

  datatype PodInput = PodInput(
    containers: seq<Container>, initContainers: seq<InitContainer>, volumes: seq<VolumeConfig>)

  datatype Source =
    | Secret(secretName: string)
    | ConfigMap(configName: string)
    | EmptyDir(sizeLimit: Option<string>)
    | Claim(claimName: string, claimReadOnly: bool)
    | HostPath(path: string, pathType: Option<string>)
    | Csi(driver: string, attributes: map<string, string>, csiReadOnly: Option<bool>, publishSecret: Option<string>)
    | NoSource

  datatype Volume = Volume(name: string, source: Source)

  datatype Mount = Mount(
    name: string, mountPath: string, readOnly: bool, subPath: string, propagation: Option<string>)

  datatype BuiltContainer = BuiltContainer(name: string, mounts: seq<Mount>)

  datatype PodSpec = PodSpec(
    containers: seq<BuiltContainer>, initContainers: seq<BuiltContainer>, volumes: seq<Volume>)

  function NonEmpty(s: string): Option<string>
  {
    if s != "" then Some(s) else None
  }

  function SourceOf(v: VolumeConfig): Source
  {
    if v.secret != "" then Secret(v.secret)
    else if v.configMap != "" then ConfigMap(v.configMap)
    else if v.emptyDir then EmptyDir(NonEmpty(v.emptyDirSize))
    else if v.claim != "" then Claim(v.claim, v.readOnly)
    else if v.hostPath != "" then HostPath(v.hostPath, NonEmpty(v.hostPathType))
    else if v.csiDriver != "" then
      Csi(v.csiDriver, v.csiAttributes, if v.readOnly then Some(true) else None, NonEmpty(v.csiSecret))
    else NoSource
  }

  function BuildVolume(v: VolumeConfig): Volume
  {
    Volume(v.name, SourceOf(v))
  }

  function BuildMount(v: VolumeConfig): Mount
  {
    Mount(v.name, v.mountPath, v.readOnly, v.subPath, NonEmpty(v.mountPropagation))
  }

  // ------------------------------------------------------- specification

  function ContainerVolumes(cs: seq<Container>): seq<VolumeConfig>
  {
    if cs == [] then [] else ContainerVolumes(cs[..|cs| - 1]) + cs[|cs| - 1].volumes
  }

  /** Every declaration, in the order a name is looked up in. */
  function Declarations(pod: PodInput): seq<VolumeConfig>
  {
    pod.volumes + ContainerVolumes(pod.containers)
  }

  function First(vs: seq<VolumeConfig>, name: string): Option<VolumeConfig>
  {
    if vs == [] then None else if vs[0].name == name then Some(vs[0]) else First(vs[1..], name)
  }

  function FirstVolume(vs: seq<Volume>, name: string): Option<Volume>
  {
    if vs == [] then None else if vs[0].name == name then Some(vs[0]) else FirstVolume(vs[1..], name)
  }

  function BuildVolumes(vs: seq<VolumeConfig>): (r: seq<Volume>)
    ensures |r| == |vs|
  {
    seq(|vs|, i requires 0 <= i < |vs| => BuildVolume(vs[i]))
  }

  /** The containers' volumes follow, each name once and without the claims. */
  function AddMissing(volumes: seq<Volume>, vs: seq<VolumeConfig>, claims: set<string>): seq<Volume>
  {
    if vs == [] then volumes
    else
      var r := AddMissing(volumes, vs[..|vs| - 1], claims);
      var v := vs[|vs| - 1];
      if v.name in claims || FirstVolume(r, v.name).Some? then r else r + [BuildVolume(v)]
  }

  function PodVolumes(pod: PodInput, claims: set<string>): seq<Volume>
  {
    AddMissing(BuildVolumes(pod.volumes), ContainerVolumes(pod.containers), claims)
  }

  function ContainerMounts(vs: seq<VolumeConfig>): seq<Mount>
  {
    if vs == [] then [] else ContainerMounts(vs[..|vs| - 1]) + [BuildMount(vs[|vs| - 1])]
  }

  /** A name that is declared nowhere is passed over. */
  function InitMounts(pod: PodInput, names: seq<string>): seq<Mount>
  {
    if names == [] then []
    else
      InitMounts(pod, names[..|names| - 1]) +
      match First(Declarations(pod), names[|names| - 1])
      case None => []
      case Some(v) => [BuildMount(v)]
  }

  function BuiltContainers(cs: seq<Container>): seq<BuiltContainer>
  {
    if cs == [] then []
    else
      var c := cs[|cs| - 1];
      BuiltContainers(cs[..|cs| - 1]) + [BuiltContainer(c.name, ContainerMounts(c.volumes))]
  }

  function BuiltInits(pod: PodInput, cs: seq<InitContainer>): seq<BuiltContainer>
  {
    if cs == [] then []
    else
      var c := cs[|cs| - 1];
      BuiltInits(pod, cs[..|cs| - 1]) + [BuiltContainer(c.name, InitMounts(pod, c.volumeMounts))]
  }

  // ----------------------------------------------------------- algorithms

  method VolumeExists(volumes: seq<Volume>, name: string) returns (found: bool)
    ensures found == FirstVolume(volumes, name).Some?
  {
    for i := 0 to |volumes|
      invariant FirstVolume(volumes, name) == FirstVolume(volumes[i..], name)
    {
      if volumes[i].name == name { return true; }
    }
    return false;
  }

  lemma FirstStep(vs: seq<VolumeConfig>, k: nat, name: string)
    requires k < |vs|
    ensures First(vs[k..], name) == if vs[k].name == name then Some(vs[k]) else First(vs[k + 1..], name)
  {
    assert vs[k..][1..] == vs[k + 1..];
  }

  lemma NoneFound(name: string)
    ensures First([], name) == None
  {
  }

  method FindVolumeByName(pod: PodInput, name: string) returns (v: Option<VolumeConfig>)
    ensures v == First(Declarations(pod), name)
  {
    hide First, ContainerVolumes;
    ghost var all := Declarations(pod);
    assert all[0..] == all;
    for i := 0 to |pod.volumes|
      invariant First(all, name) == First(all[i..], name)
    {
      FirstStep(all, i, name);
      if pod.volumes[i].name == name { return Some(pod.volumes[i]); }
    }
    ghost var seen := |pod.volumes|;
    NoVolumes();
    for i := 0 to |pod.containers|
      invariant seen == |pod.volumes| + |ContainerVolumes(pod.containers[..i])| <= |all|
      invariant First(all, name) == First(all[seen..], name)
    {
      ContainerAt(pod.containers, i);
      VolumesStep(pod.containers, i);
      ghost var base := seen;
      for j := 0 to |pod.containers[i].volumes|
        invariant seen == base + j && First(all, name) == First(all[seen..], name)
      {
        FirstStep(all, seen, name);
        if pod.containers[i].volumes[j].name == name {
          return Some(pod.containers[i].volumes[j]);
        }
        seen := seen + 1;
      }
    }
    assert pod.containers[..|pod.containers|] == pod.containers;
    NoneFound(name);
    return None;
  }

  lemma NoVolumes()
    ensures ContainerVolumes([]) == []
  {
  }

  lemma VolumesStep(cs: seq<Container>, i: nat)
    requires i < |cs|
    ensures ContainerVolumes(cs[..i + 1]) == ContainerVolumes(cs[..i]) + cs[i].volumes
  {
    assert cs[..i + 1][..i] == cs[..i];
  }

  lemma {:induction false} ContainerAt(cs: seq<Container>, i: nat)
    requires i < |cs|
    ensures var before, mine := ContainerVolumes(cs[..i]), cs[i].volumes;
            && |before| + |mine| <= |ContainerVolumes(cs)|
            && forall j | 0 <= j < |mine| :: ContainerVolumes(cs)[|before| + j] == mine[j]
    decreases |cs|
  {
    if i < |cs| - 1 {
      var shorter := cs[..|cs| - 1];
      ContainerAt(shorter, i);
      assert shorter[..i] == cs[..i];
    }
  }

  method BuildPodSpec(pod: PodInput, claims: set<string>) returns (spec: PodSpec)
    ensures spec.volumes == PodVolumes(pod, claims)
    ensures spec.containers == BuiltContainers(pod.containers)
    ensures spec.initContainers == BuiltInits(pod, pod.initContainers)
  {
    hide Declarations, First, FirstVolume, BuildMount, BuildVolume;
    var containers: seq<BuiltContainer> := [];
    for i := 0 to |pod.containers|
      invariant containers == BuiltContainers(pod.containers[..i])
    {
      var c := pod.containers[i];
      var mounts: seq<Mount> := [];
      for j := 0 to |c.volumes|
        invariant mounts == ContainerMounts(c.volumes[..j])
      {
        mounts := mounts + [BuildMount(c.volumes[j])];
        assert c.volumes[..j + 1][..j] == c.volumes[..j];
      }
      assert c.volumes[..|c.volumes|] == c.volumes && pod.containers[..i + 1][..i] == pod.containers[..i];
      containers := containers + [BuiltContainer(c.name, mounts)];
    }
    assert pod.containers[..|pod.containers|] == pod.containers;

    var inits := BuildInitContainers(pod);
    var volumes := CollectVolumes(pod, claims);
    spec := PodSpec(containers, inits, volumes);
  }

  method BuildInitContainers(pod: PodInput) returns (inits: seq<BuiltContainer>)
    ensures inits == BuiltInits(pod, pod.initContainers)
  {
    hide Declarations, First, BuildMount;
    inits := [];
    for i := 0 to |pod.initContainers|
      invariant inits == BuiltInits(pod, pod.initContainers[..i])
    {
      var c := pod.initContainers[i];
      var mounts: seq<Mount> := [];
      for j := 0 to |c.volumeMounts|
        invariant mounts == InitMounts(pod, c.volumeMounts[..j])
      {
        var found := FindVolumeByName(pod, c.volumeMounts[j]);
        if found.Some? {
          mounts := mounts + [BuildMount(found.value)];
        }
        assert c.volumeMounts[..j + 1][..j] == c.volumeMounts[..j];
      }
      assert c.volumeMounts[..|c.volumeMounts|] == c.volumeMounts;
      assert pod.initContainers[..i + 1][..i] == pod.initContainers[..i];
      inits := inits + [BuiltContainer(c.name, mounts)];
    }
    assert pod.initContainers[..|pod.initContainers|] == pod.initContainers;
  }

  method CollectVolumes(pod: PodInput, claims: set<string>) returns (volumes: seq<Volume>)
    ensures volumes == PodVolumes(pod, claims)
  {
    hide FirstVolume, BuildVolume, AddMissing, ContainerVolumes;
    volumes := BuildVolumes(pod.volumes);
    ghost var base := volumes;
    NoVolumes();
    NothingAdded(base, claims);
    for i := 0 to |pod.containers|
      invariant volumes == AddMissing(base, ContainerVolumes(pod.containers[..i]), claims)
    {
      VolumesStep(pod.containers, i);
      ghost var before := ContainerVolumes(pod.containers[..i]);
      var mine := pod.containers[i].volumes;
      assert before + mine[..0] == before;
      for j := 0 to |mine|
        invariant volumes == AddMissing(base, before + mine[..j], claims)
      {
        assert before + mine[..j + 1] == before + mine[..j] + [mine[j]];
        AddOneMore(base, before + mine[..j], mine[j], claims);
        if mine[j].name in claims {
          continue;
        }
        var known := VolumeExists(volumes, mine[j].name);
        if !known {
          volumes := volumes + [BuildVolume(mine[j])];
        }
      }
      assert mine[..|mine|] == mine;
    }
    assert pod.containers[..|pod.containers|] == pod.containers;
  }

  lemma NothingAdded(volumes: seq<Volume>, claims: set<string>)
    ensures AddMissing(volumes, [], claims) == volumes
  {
  }

  lemma AddOneMore(volumes: seq<Volume>, vs: seq<VolumeConfig>, v: VolumeConfig, claims: set<string>)
    ensures var r := AddMissing(volumes, vs, claims);
            AddMissing(volumes, vs + [v], claims) ==
            if v.name in claims || FirstVolume(r, v.name).Some? then r else r + [BuildVolume(v)]
  {
    assert (vs + [v])[..|vs|] == vs;
  }

  // ------------------------------------------------- names and their source

  function Names(vs: seq<Volume>): (r: seq<string>)
    ensures |r| == |vs|
  {
    seq(|vs|, i requires 0 <= i < |vs| => vs[i].name)
  }

  function DeclaredNames(vs: seq<VolumeConfig>): (r: seq<string>)
    ensures |r| == |vs|
  {
    seq(|vs|, i requires 0 <= i < |vs| => vs[i].name)
  }

  lemma {:induction false} FirstVolumeConcat(a: seq<Volume>, b: seq<Volume>, name: string)
    ensures FirstVolume(a + b, name) == if FirstVolume(a, name).Some? then FirstVolume(a, name) else FirstVolume(b, name)
  {
    if a == [] {
      assert a + b == b;
    } else {
      assert (a + b)[1..] == a[1..] + b;
      FirstVolumeConcat(a[1..], b, name);
    }
  }

  lemma {:induction false} FirstConcat(a: seq<VolumeConfig>, b: seq<VolumeConfig>, name: string)
    ensures First(a + b, name) == if First(a, name).Some? then First(a, name) else First(b, name)
  {
    if a == [] {
      assert a + b == b;
    } else {
      assert (a + b)[1..] == a[1..] + b;
      FirstConcat(a[1..], b, name);
    }
  }

  lemma {:induction false} FirstOfBuilt(vs: seq<VolumeConfig>, name: string)
    ensures FirstVolume(BuildVolumes(vs), name) ==
            match First(vs, name) case None => None case Some(v) => Some(BuildVolume(v))
  {
    if vs != [] {
      assert BuildVolumes(vs)[1..] == BuildVolumes(vs[1..]);
      FirstOfBuilt(vs[1..], name);
    }
  }

  lemma {:induction false} FirstOfAdded(volumes: seq<Volume>, vs: seq<VolumeConfig>, claims: set<string>, name: string)
    ensures FirstVolume(AddMissing(volumes, vs, claims), name) ==
            if FirstVolume(volumes, name).Some? then FirstVolume(volumes, name)
            else if name in claims then None
            else match First(vs, name) case None => None case Some(v) => Some(BuildVolume(v))
  {
    if vs != [] {
      var n := |vs| - 1;
      FirstOfAdded(volumes, vs[..n], claims, name);
      assert vs == vs[..n] + [vs[n]];
      FirstConcat(vs[..n], [vs[n]], name);
      FirstVolumeConcat(AddMissing(volumes, vs[..n], claims), [BuildVolume(vs[n])], name);
    }
  }

  /** Each name stands for its first declaration, unless a claim template provides it and the
    * pod level does not declare it. */
  lemma VolumeIsFirstDeclaration(pod: PodInput, claims: set<string>, name: string)
    ensures FirstVolume(PodVolumes(pod, claims), name) ==
            if name in claims && name !in DeclaredNames(pod.volumes) then None
            else match First(Declarations(pod), name) case None => None case Some(v) => Some(BuildVolume(v))
  {
    FirstOfAdded(BuildVolumes(pod.volumes), ContainerVolumes(pod.containers), claims, name);
    FirstOfBuilt(pod.volumes, name);
    FirstConcat(pod.volumes, ContainerVolumes(pod.containers), name);
    FirstIsDeclared(pod.volumes, name);
  }

  lemma {:induction false} FirstIsDeclared(vs: seq<VolumeConfig>, name: string)
    ensures First(vs, name).Some? <==> name in DeclaredNames(vs)
    ensures First(vs, name).Some? ==> First(vs, name).value in vs && First(vs, name).value.name == name
  {
    if vs != [] {
      FirstIsDeclared(vs[1..], name);
      assert DeclaredNames(vs) == [vs[0].name] + DeclaredNames(vs[1..]);
    }
  }

  lemma {:induction false} FirstVolumeIsNamed(vs: seq<Volume>, name: string)
    ensures FirstVolume(vs, name).Some? <==> name in Names(vs)
  {
    if vs != [] {
      FirstVolumeIsNamed(vs[1..], name);
      assert Names(vs) == [vs[0].name] + Names(vs[1..]);
    }
  }

  /** Volume names are distinct exactly when the pod-level ones are. */
  lemma VolumeNamesDistinct(pod: PodInput, claims: set<string>)
    ensures NoDup(Names(PodVolumes(pod, claims))) <==> NoDup(DeclaredNames(pod.volumes))
  {
    AddedNamesDistinct(BuildVolumes(pod.volumes), ContainerVolumes(pod.containers), claims);
    assert Names(BuildVolumes(pod.volumes)) == DeclaredNames(pod.volumes);
  }

  lemma {:induction false} AddedNamesDistinct(volumes: seq<Volume>, vs: seq<VolumeConfig>, claims: set<string>)
    ensures NoDup(Names(AddMissing(volumes, vs, claims))) <==> NoDup(Names(volumes))
  {
    if vs != [] {
      hide NoDup;
      var n := |vs| - 1;
      var r := AddMissing(volumes, vs[..n], claims);
      AddedNamesDistinct(volumes, vs[..n], claims);
      FirstVolumeIsNamed(r, vs[n].name);
      assert Names(r + [BuildVolume(vs[n])]) == Names(r) + [vs[n].name];
      NoDupSnoc(Names(r), vs[n].name);
    }
  }

  // ------------------------------------------------------------- integrity

  /** The mount is of a declaration of its name, and the name is a pod volume or a claim. */
  ghost predicate Backed(pod: PodInput, claims: set<string>, m: Mount)
  {
    && (exists v :: v in Declarations(pod) && m == BuildMount(v))
    && (m.name in Names(PodVolumes(pod, claims)) || m.name in claims)
  }

  lemma DeclarationIsBacked(pod: PodInput, claims: set<string>, v: VolumeConfig)
    requires v in Declarations(pod)
    ensures Backed(pod, claims, BuildMount(v))
  {
    hide PodVolumes, Declarations;
    VolumeIsFirstDeclaration(pod, claims, v.name);
    FirstIsDeclared(Declarations(pod), v.name);
    var i :| 0 <= i < |Declarations(pod)| && Declarations(pod)[i] == v;
    assert DeclaredNames(Declarations(pod))[i] == v.name;
    FirstVolumeIsNamed(PodVolumes(pod, claims), v.name);
  }

  lemma {:induction false} ContainerMountsBacked(pod: PodInput, claims: set<string>, vs: seq<VolumeConfig>)
    requires forall v :: v in vs ==> v in Declarations(pod)
    ensures forall m :: m in ContainerMounts(vs) ==> Backed(pod, claims, m)
  {
    hide Backed, Declarations;
    if vs != [] {
      ContainerMountsBacked(pod, claims, vs[..|vs| - 1]);
      DeclarationIsBacked(pod, claims, vs[|vs| - 1]);
    }
  }

  lemma {:induction false} InitMountsBacked(pod: PodInput, claims: set<string>, names: seq<string>)
    ensures forall m :: m in InitMounts(pod, names) ==> Backed(pod, claims, m)
  {
    hide Backed, Declarations;
    if names != [] {
      var name := names[|names| - 1];
      InitMountsBacked(pod, claims, names[..|names| - 1]);
      FirstIsDeclared(Declarations(pod), name);
      if First(Declarations(pod), name).Some? {
        DeclarationIsBacked(pod, claims, First(Declarations(pod), name).value);
      }
    }
  }

  lemma {:induction false} BuiltContainersBacked(pod: PodInput, claims: set<string>, n: nat)
    requires n <= |pod.containers|
    ensures forall c, m :: c in BuiltContainers(pod.containers[..n]) && m in c.mounts ==> Backed(pod, claims, m)
  {
    hide Backed;
    if n > 0 {
      BuiltContainersBacked(pod, claims, n - 1);
      assert pod.containers[..n][..n - 1] == pod.containers[..n - 1];
      var mine := pod.containers[n - 1].volumes;
      ContainerAt(pod.containers, n - 1);
      forall v | v in mine ensures v in Declarations(pod) {
        var j :| 0 <= j < |mine| && mine[j] == v;
        assert Declarations(pod)[|pod.volumes| + |ContainerVolumes(pod.containers[..n - 1])| + j] == v;
      }
      ContainerMountsBacked(pod, claims, mine);
    }
  }

  lemma {:induction false} BuiltInitsBacked(pod: PodInput, claims: set<string>, cs: seq<InitContainer>)
    ensures forall c, m :: c in BuiltInits(pod, cs) && m in c.mounts ==> Backed(pod, claims, m)
  {
    hide Backed;
    if cs != [] {
      BuiltInitsBacked(pod, claims, cs[..|cs| - 1]);
      InitMountsBacked(pod, claims, cs[|cs| - 1].volumeMounts);
    }
  }

  /** No mount dangles, in any container or init container of any pod. */
  lemma MountsAreBacked(pod: PodInput, claims: set<string>)
    ensures forall c, m :: c in BuiltContainers(pod.containers) && m in c.mounts ==> Backed(pod, claims, m)
    ensures forall c, m :: c in BuiltInits(pod, pod.initContainers) && m in c.mounts ==> Backed(pod, claims, m)
  {
    hide Backed;
    BuiltContainersBacked(pod, claims, |pod.containers|);
    assert pod.containers[..|pod.containers|] == pod.containers;
    BuiltInitsBacked(pod, claims, pod.initContainers);
  }

  /** An init container's mount is of the declaration the pod volume of that name comes from. */
  lemma InitMountMatchesVolume(pod: PodInput, claims: set<string>, names: seq<string>, k: nat)
    requires k < |names| && First(Declarations(pod), names[k]).Some?
    requires names[k] !in claims || names[k] in DeclaredNames(pod.volumes)
    ensures var v := First(Declarations(pod), names[k]).value;
            BuildMount(v) in InitMounts(pod, names) && BuildVolume(v) in PodVolumes(pod, claims)
  {
    InitMountAt(pod, names, k);
    VolumeIsFirstDeclaration(pod, claims, names[k]);
    FirstVolumeIsThere(PodVolumes(pod, claims), names[k]);
  }

  lemma {:induction false} InitMountAt(pod: PodInput, names: seq<string>, k: nat)
    requires k < |names| && First(Declarations(pod), names[k]).Some?
    ensures BuildMount(First(Declarations(pod), names[k]).value) in InitMounts(pod, names)
    decreases |names|
  {
    hide Declarations;
    if k < |names| - 1 {
      InitMountAt(pod, names[..|names| - 1], k);
    }
  }

  lemma {:induction false} FirstVolumeIsThere(vs: seq<Volume>, name: string)
    ensures FirstVolume(vs, name).Some? ==> FirstVolume(vs, name).value in vs
  {
    if vs != [] { FirstVolumeIsThere(vs[1..], name); }
  }

  /** An init container gets a mount for each name it lists exactly when every one of them is
    * declared at pod level or in a container: a claim template alone is silently not mounted. */
  lemma {:induction false} InitMountsComplete(pod: PodInput, names: seq<string>)
    ensures |InitMounts(pod, names)| <= |names|
    ensures |InitMounts(pod, names)| == |names| <==>
            forall n :: n in names ==> n in DeclaredNames(Declarations(pod))
  {
    hide Declarations;
    if names != [] {
      var last := names[|names| - 1];
      InitMountsComplete(pod, names[..|names| - 1]);
      FirstIsDeclared(Declarations(pod), last);
      assert names == names[..|names| - 1] + [last];
    }
  }

  // ------------------------------------------------------- fields of the result

  /** A mount carries its declaration's path, sub-path and access. */
  predicate Mounts(v: VolumeConfig, m: Mount)
  {
    && m.name == v.name && m.mountPath == v.mountPath && m.subPath == v.subPath && m.readOnly == v.readOnly
    && (m.propagation.Some? <==> v.mountPropagation != "")
    && (m.propagation.Some? ==> m.propagation.value == v.mountPropagation)
  }

  lemma {:induction false} ContainerMountsAre(vs: seq<VolumeConfig>)
    ensures |ContainerMounts(vs)| == |vs| && forall j :: 0 <= j < |vs| ==> Mounts(vs[j], ContainerMounts(vs)[j])
  {
    if vs != [] { ContainerMountsAre(vs[..|vs| - 1]); }
  }

  /** Every container has its volumes' mounts, in their order. */
  lemma {:induction false} ContainersAre(cs: seq<Container>)
    ensures var built := BuiltContainers(cs);
            && |built| == |cs|
            && forall i :: 0 <= i < |cs| ==>
                 && built[i].name == cs[i].name && |built[i].mounts| == |cs[i].volumes|
                 && forall j :: 0 <= j < |cs[i].volumes| ==> Mounts(cs[i].volumes[j], built[i].mounts[j])
  {
    if cs != [] {
      hide Mounts, ContainerMounts;
      ContainersAre(cs[..|cs| - 1]);
      ContainerMountsAre(cs[|cs| - 1].volumes);
    }
  }

  lemma {:induction false} InitMountsAre(pod: PodInput, names: seq<string>)
    requires forall n :: n in names ==> First(Declarations(pod), n).Some?
    ensures |InitMounts(pod, names)| == |names|
    ensures forall k :: 0 <= k < |names| ==> Mounts(First(Declarations(pod), names[k]).value, InitMounts(pod, names)[k])
  {
    hide First, Declarations;
    if names != [] { InitMountsAre(pod, names[..|names| - 1]); }
  }

  /** A volume has one source: the first that its declaration sets, of secret, configmap, empty
    * directory, claim, host path and CSI driver; with the settings that go with it. */
  predicate Sourced(v: VolumeConfig, s: Source)
  {
    && (s.Secret? <==> v.secret != "")
    && (s.ConfigMap? <==> v.secret == "" && v.configMap != "")
    && (s.EmptyDir? <==> v.secret == "" && v.configMap == "" && v.emptyDir)
    && (s.Claim? <==> v.secret == "" && v.configMap == "" && !v.emptyDir && v.claim != "")
    && (s.HostPath? <==> v.secret == "" && v.configMap == "" && !v.emptyDir && v.claim == "" && v.hostPath != "")
    && (s.Csi? <==> v.secret == "" && v.configMap == "" && !v.emptyDir && v.claim == "" && v.hostPath == ""
                    && v.csiDriver != "")
    && (s.Secret? ==> s.secretName == v.secret)
    && (s.ConfigMap? ==> s.configName == v.configMap)
    && (s.EmptyDir? ==> if v.emptyDirSize == "" then s.sizeLimit.None? else s.sizeLimit == Some(v.emptyDirSize))
    && (s.Claim? ==> s.claimName == v.claim && s.claimReadOnly == v.readOnly)
    && (s.HostPath? ==> s.path == v.hostPath
                        && if v.hostPathType == "" then s.pathType.None? else s.pathType == Some(v.hostPathType))
    && (s.Csi? ==> && s.driver == v.csiDriver && s.attributes == v.csiAttributes
                   && (s.csiReadOnly == Some(true) <==> v.readOnly) && (s.csiReadOnly.None? <==> !v.readOnly)
                   && if v.csiSecret == "" then s.publishSecret.None? else s.publishSecret == Some(v.csiSecret))
  }

  /** Every volume of a pod has the source its name's first declaration sets. */
  lemma VolumesAreSourced(pod: PodInput, claims: set<string>, name: string)
    ensures var found := FirstVolume(PodVolumes(pod, claims), name);
            found.Some? ==> && First(Declarations(pod), name).Some?
                            && found.value.name == name
                            && Sourced(First(Declarations(pod), name).value, found.value.source)
  {
    VolumeIsFirstDeclaration(pod, claims, name);
    FirstIsDeclared(Declarations(pod), name);
    hide PodVolumes, Declarations, First, FirstVolume;
    if First(Declarations(pod), name).Some? {
      SourceIs(First(Declarations(pod), name).value);
    }
  }

  lemma SourceIs(v: VolumeConfig)
    ensures Sourced(v, SourceOf(v))
  {
  }
}
