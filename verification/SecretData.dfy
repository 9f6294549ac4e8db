/** The contents of a bucket's credentials secret (bucket_controller.go:277-301)
    and the check on templates (bucket_webhook.go:113-130). Parsing and executing
    a Go template is one opaque step: text, or an error. */
module SecretData {
  import opened Wrappers
  import opened Worlds

  /** What templates see. */
  datatype Access = Access(bucket: string, accessKey: Datum, secretKey: Datum, endpoint: string, secure: bool)

  type Renderer = (string, Access) -> Option<string>

  const RESERVED: set<string> := {MINIO_ACCESS_KEY, MINIO_SECRET_KEY, MINIO_ENDPOINT, MINIO_BUCKET, MINIO_SECURE}

  /** The BucketAccess templates are tried on at admission. */
  const NO_ACCESS := Access("", Text(""), Text(""), "", false)

  function OwnEntries(access: Access): map<string, Datum> {
    map[MINIO_BUCKET := Text(access.bucket),
        MINIO_ACCESS_KEY := access.accessKey,
        MINIO_SECRET_KEY := access.secretKey,
        MINIO_ENDPOINT := Text(access.endpoint),
        MINIO_SECURE := Text(if access.secure then "true" else "false")]
  }

  function AccessOf(k: Key, sa: Secret, p: Provider): Access {
    Access(k.name, Lookup(sa.data, MINIO_ACCESS_KEY), Lookup(sa.data, MINIO_SECRET_KEY), p.endpoint, p.secure)
  }

  /** The controller's entries and exactly the template's, whatever these render to. */
  predicate Carries(data: map<string, Datum>, template: map<string, string>, access: Access) {
    data.Keys == RESERVED + template.Keys && data - template.Keys == OwnEntries(access) - template.Keys
  }

  predicate Renders(render: Renderer, template: map<string, string>, access: Access) {
    forall k :: k in template ==> render(template[k], access).Some?
  }

  function Rendered(render: Renderer, text: string, access: Access): Datum {
    var r := render(text, access);
    Text(if r.Some? then r.value else "")
  }

  /** The controller's entries overlaid with some of the rendered templates. */
  function Overlaid(render: Renderer, template: map<string, string>, access: Access, done: set<string>): map<string, Datum> {
    OwnEntries(access) + map k | k in template && k in done :: Rendered(render, template[k], access)
  }

  /** The controller's entries overlaid with all rendered templates, if all of them render. */
  function Contents(render: Renderer, template: map<string, string>, access: Access): Option<map<string, Datum>> {
    if Renders(render, template, access) then Some(Overlaid(render, template, access, template.Keys)) else None
  }

  lemma OverlaidOneMore(render: Renderer, template: map<string, string>, access: Access, done: set<string>, k: string)
    requires k in template
    ensures Overlaid(render, template, access, done)[k := Rendered(render, template[k], access)] ==
            Overlaid(render, template, access, done + {k})
  {
  }

  /** The overlay loop. Go ranges over the map in any order; this picks any. */
  method Fill(render: Renderer, template: map<string, string>, access: Access)
    returns (data: Option<map<string, Datum>>)
    ensures data == Contents(render, template, access)
  {
    var filled := OwnEntries(access);
    var todo := template.Keys;
    assert filled == Overlaid(render, template, access, {});
    while todo != {}
      invariant todo <= template.Keys
      invariant forall k :: k in template && k !in todo ==> render(template[k], access).Some?
      invariant filled == Overlaid(render, template, access, template.Keys - todo)
      decreases todo
    {
      var k :| k in todo;
      var text := render(template[k], access);
      if text.None? {
        return None;
      }
      OverlaidOneMore(render, template, access, template.Keys - todo, k);
      assert template.Keys - todo + {k} == template.Keys - (todo - {k});
      filled := filled[k := Text(text.value)];
      todo := todo - {k};
    }
    assert template.Keys - todo == template.Keys;
    return Some(filled);
  }

  /** validateTemplate. */
  method ValidateTemplate(render: Renderer, template: map<string, string>) returns (accepted: bool)
    ensures accepted <==>
            && (forall k :: k in template ==>
                  k !in {"MINIO_ACCESS_KEY", "MINIO_SECRET_KEY", "MINIO_ENDPOINT", "MINIO_BUCKET", "MINIO_SECURE"})
            && (forall k :: k in template ==> render(template[k], Access("", Text(""), Text(""), "", false)).Some?)
  {
    var reserved := [MINIO_ACCESS_KEY, MINIO_SECRET_KEY, MINIO_ENDPOINT, MINIO_BUCKET, MINIO_SECURE];
    assert forall k :: k in RESERVED <==> k in reserved;
    for i := 0 to |reserved|
      invariant forall j :: 0 <= j < i ==> reserved[j] !in template
    {
      if reserved[i] in template {
        assert reserved[i] in RESERVED;
        return false;
      }
    }
    var todo := template.Keys;
    while todo != {}
      invariant todo <= template.Keys
      invariant forall k :: k in template && k !in todo ==> render(template[k], NO_ACCESS).Some?
      decreases todo
    {
      var k :| k in todo;
      if render(template[k], NO_ACCESS).None? {
        return false;
      }
      todo := todo - {k};
    }
    return true;
  }

  /** Exactly when the controller's own entries are safe from the template: when
      it names none of them, whatever the templates render to. */
  lemma OwnEntriesKeptExactly(template: map<string, string>, access: Access)
    ensures template.Keys !! RESERVED <==>
            forall render: Renderer :: Contents(render, template, access).Some? ==>
              forall k :: k in RESERVED ==> Contents(render, template, access).value[k] == OwnEntries(access)[k]
  {
    if k :| k in template && k in RESERVED {
      var other := if OwnEntries(access)[k] == Text("a") then "b" else "a";
      var render: Renderer := (t, a) => Some(other);
      assert Contents(render, template, access).Some?;
      assert Contents(render, template, access).value[k] == Text(other);
    }
  }

  lemma OwnEntriesKept(render: Renderer, template: map<string, string>, access: Access)
    requires template.Keys !! RESERVED && Contents(render, template, access).Some?
    ensures forall k :: k in RESERVED ==>
              k in Contents(render, template, access).value &&
              Contents(render, template, access).value[k] == OwnEntries(access)[k]
  {
  }

  lemma ContentsCarry(render: Renderer, template: map<string, string>, access: Access)
    requires Contents(render, template, access).Some?
    ensures Carries(Contents(render, template, access).value, template, access)
  {
    assert OwnEntries(access).Keys == RESERVED;
  }

  /** An accepted template adds exactly its own entries. */
  lemma TemplateAddsItsKeys(render: Renderer, template: map<string, string>, access: Access)
    requires template.Keys !! RESERVED && Contents(render, template, access).Some?
    ensures Contents(render, template, access).value.Keys == RESERVED + template.Keys
    ensures Contents(render, template, access).value - template.Keys == OwnEntries(access)
  {
    assert OwnEntries(access).Keys == RESERVED;
  }

  /** The contents, entry by entry: a template's entry holds what it renders to for the
      access data of this bucket, this account secret and this provider; the
      controller's five entries, where no template takes their place, hold those data. */
  lemma ContentsAre(render: Renderer, template: map<string, string>, k: Key, sa: Secret, p: Provider)
    ensures var accessKey := if "MINIO_ACCESS_KEY" in sa.data then sa.data["MINIO_ACCESS_KEY"] else Text("");
            var secretKey := if "MINIO_SECRET_KEY" in sa.data then sa.data["MINIO_SECRET_KEY"] else Text("");
            var access := Access(k.name, accessKey, secretKey, p.endpoint, p.secure);
            var r := Contents(render, template, AccessOf(k, sa, p));
            && (r.Some? <==> forall t :: t in template ==> render(template[t], access).Some?)
            && (r.Some? ==>
                  var data := r.value;
                  && data.Keys == template.Keys +
                     {"MINIO_ACCESS_KEY", "MINIO_SECRET_KEY", "MINIO_ENDPOINT", "MINIO_BUCKET", "MINIO_SECURE"}
                  && (forall t :: t in template ==> data[t] == Text(render(template[t], access).value))
                  && ("MINIO_BUCKET" !in template ==> data["MINIO_BUCKET"] == Text(k.name))
                  && ("MINIO_ACCESS_KEY" !in template ==> data["MINIO_ACCESS_KEY"] == accessKey)
                  && ("MINIO_SECRET_KEY" !in template ==> data["MINIO_SECRET_KEY"] == secretKey)
                  && ("MINIO_ENDPOINT" !in template ==> data["MINIO_ENDPOINT"] == Text(p.endpoint))
                  && ("MINIO_SECURE" !in template ==> data["MINIO_SECURE"] == Text(if p.secure then "true" else "false")))
  {
    var access := AccessOf(k, sa, p);
    if Contents(render, template, access).Some? {
      var data := Contents(render, template, access).value;
      assert data.Keys == OwnEntries(access).Keys + template.Keys;
    }
  }
}
