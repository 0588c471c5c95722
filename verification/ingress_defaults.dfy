/** Shared ingress settings, filled into blocks that do not set their own. */
module IngressDefaulting {
  import opened Options
  import opened Blocks

  function OrElse(own: string, shared: string): string
  {
    if own == "" then shared else own
  }

  function IsOn(tls: Option<bool>): bool
  {
    tls.Some? && tls.value
  }

  function WithTls(ing: Ingress, d: IngressDefaults): Ingress
  {
    if d.tls.Some? && !ing.tls then ing.(tls := d.tls.value) else ing
  }

  function WithSecret(ing: Ingress, d: IngressDefaults): Ingress
  {
    if d.tlsSecret != "" && ing.tlsSecret == "" then ing.(tlsSecret := d.tlsSecret) else ing
  }

  function WithIssuer(ing: Ingress, d: IngressDefaults): Ingress
  {
    if d.issuer != "" && ing.issuer == "" then ing.(issuer := d.issuer) else ing
  }

  function WithClass(ing: Ingress, d: IngressDefaults): Ingress
  {
    if d.className != "" && ing.className == "" then ing.(className := d.className) else ing
  }

  function WithAnnotations(ing: Ingress, d: IngressDefaults): Ingress
  {
    if |d.annotations| > 0 then ing.(annotations := d.annotations + ing.annotations) else ing
  }

  /** One block under one set of defaults. */
  function WithDefaults(ing: Ingress, d: IngressDefaults): Ingress
  {
    WithAnnotations(WithClass(WithIssuer(WithSecret(WithTls(ing, d), d), d), d), d)
  }

  lemma EachField(ing: Ingress, d: IngressDefaults)
    ensures WithTls(ing, d) == ing.(tls := ing.tls || IsOn(d.tls))
    ensures WithSecret(ing, d) == ing.(tlsSecret := OrElse(ing.tlsSecret, d.tlsSecret))
    ensures WithIssuer(ing, d) == ing.(issuer := OrElse(ing.issuer, d.issuer))
    ensures WithClass(ing, d) == ing.(className := OrElse(ing.className, d.className))
    ensures WithAnnotations(ing, d) == ing.(annotations := d.annotations + ing.annotations)
  {
    if |d.annotations| == 0 {
      assert d.annotations == map[];
      assert d.annotations + ing.annotations == ing.annotations;
    }
  }

  /** The nearer defaults over the farther ones, field by field. */
  function Nearer(near: IngressDefaults, far: IngressDefaults): IngressDefaults
  {
    IngressDefaults(far.annotations + near.annotations,
                    Some(IsOn(near.tls) || IsOn(far.tls)),
                    OrElse(near.tlsSecret, far.tlsSecret),
                    OrElse(near.issuer, far.issuer),
                    OrElse(near.className, far.className),
                    far.mode)
  }

  /** Every field of a defaulted block: its own setting, or else the shared one; TLS is
    * on if either turns it on, and own annotations override shared ones key by key. */
  lemma WithDefaultsFields(ing: Ingress, d: IngressDefaults)
    ensures var r := WithDefaults(ing, d);
            && r.tls == (ing.tls || IsOn(d.tls))
            && r.tlsSecret == OrElse(ing.tlsSecret, d.tlsSecret)
            && r.issuer == OrElse(ing.issuer, d.issuer)
            && r.className == OrElse(ing.className, d.className)
            && r.annotations == d.annotations + ing.annotations
            && r == ing.(tls := r.tls, tlsSecret := r.tlsSecret, issuer := r.issuer,
                         className := r.className, annotations := r.annotations)
  {
    hide WithTls, WithSecret, WithIssuer, WithClass, WithAnnotations, OrElse, IsOn;
    EachField(ing, d);
    var a := WithTls(ing, d);
    EachField(a, d);
    var b := WithSecret(a, d);
    EachField(b, d);
    var e := WithIssuer(b, d);
    EachField(e, d);
    EachField(WithClass(e, d), d);
  }

  /** Applying a sub-project's defaults and then the root's is applying both at once. */
  lemma DefaultsCompose(ing: Ingress, near: IngressDefaults, far: IngressDefaults)
    ensures WithDefaults(WithDefaults(ing, near), far) == WithDefaults(ing, Nearer(near, far))
  {
    hide WithDefaults;
    WithDefaultsFields(ing, near);
    WithDefaultsFields(WithDefaults(ing, near), far);
    WithDefaultsFields(ing, Nearer(near, far));
    assert far.annotations + (near.annotations + ing.annotations) == far.annotations + near.annotations + ing.annotations;
  }

  lemma DefaultsIdempotent(ing: Ingress, d: IngressDefaults)
    ensures WithDefaults(WithDefaults(ing, d), d) == WithDefaults(ing, d)
  {
    hide WithDefaults;
    WithDefaultsFields(ing, d);
    WithDefaultsFields(WithDefaults(ing, d), d);
    assert d.annotations + (d.annotations + ing.annotations) == d.annotations + ing.annotations;
  }

  // ---------------------------------------------------------- whole configs

  function IngressesWithDefaults(ings: seq<Ingress>, d: IngressDefaults): (r: seq<Ingress>)
    ensures |r| == |ings|
  {
    seq(|ings|, i requires 0 <= i < |ings| => WithDefaults(ings[i], d))
  }

  function WorkloadsWithDefaults(ws: seq<Workload>, d: IngressDefaults): (r: seq<Workload>)
    ensures |r| == |ws|
  {
    seq(|ws|, i requires 0 <= i < |ws| => ws[i].(ingresses := IngressesWithDefaults(ws[i].ingresses, d)))
  }

  function Defaulted(c: Config, d: IngressDefaults): Config
  {
    c.(deployments := WorkloadsWithDefaults(c.deployments, d),
       statefulSets := WorkloadsWithDefaults(c.statefulSets, d),
       ingresses := IngressesWithDefaults(c.ingresses, d))
  }

  lemma IngressesCompose(ings: seq<Ingress>, near: IngressDefaults, far: IngressDefaults)
    ensures IngressesWithDefaults(IngressesWithDefaults(ings, near), far) == IngressesWithDefaults(ings, Nearer(near, far))
    ensures IngressesWithDefaults(IngressesWithDefaults(ings, near), near) == IngressesWithDefaults(ings, near)
  {
    hide WithDefaults, Nearer;
    forall i | 0 <= i < |ings|
      ensures WithDefaults(WithDefaults(ings[i], near), far) == WithDefaults(ings[i], Nearer(near, far))
      ensures WithDefaults(WithDefaults(ings[i], near), near) == WithDefaults(ings[i], near)
    {
      DefaultsCompose(ings[i], near, far);
      DefaultsIdempotent(ings[i], near);
    }
  }

  lemma WorkloadsCompose(ws: seq<Workload>, near: IngressDefaults, far: IngressDefaults)
    ensures WorkloadsWithDefaults(WorkloadsWithDefaults(ws, near), far) == WorkloadsWithDefaults(ws, Nearer(near, far))
    ensures WorkloadsWithDefaults(WorkloadsWithDefaults(ws, near), near) == WorkloadsWithDefaults(ws, near)
  {
    hide IngressesWithDefaults, Nearer;
    forall i | 0 <= i < |ws| {
      IngressesCompose(ws[i].ingresses, near, far);
    }
  }

  /** Two levels of defaults are one, and a repeated level changes nothing. */
  lemma ConfigDefaultsCompose(c: Config, near: IngressDefaults, far: IngressDefaults)
    ensures Defaulted(Defaulted(c, near), far) == Defaulted(c, Nearer(near, far))
    ensures Defaulted(Defaulted(c, near), near) == Defaulted(c, near)
  {
    hide WorkloadsWithDefaults, IngressesWithDefaults, Nearer;
    WorkloadsCompose(c.deployments, near, far);
    WorkloadsCompose(c.statefulSets, near, far);
    IngressesCompose(c.ingresses, near, far);
  }
}
