/** `get_contributors` (osf_pigeon/pigeon.py:274-293), the `parse_json`
    callback of the contributors listing: every contributor record is
    projected to its ORCiD, full name and affiliated institution names. The
    institution request `get_with_retry(href, retry_on=(429,)).json()` is the
    oracle `institutions`. */
module Contributors {
  import opened Common
  import opened Pagination

  /** What one contributor record yields before its institutions are
      requested: the ORCiD (null when absent), the full name and the
      institutions link. */
  datatype Fields = Fields(orcid: Json, name: Json, institutionsUrl: string)

  /** `contributor['embeds']['users']['data']`. */
  function EmbeddedUser(contributor: Json): Result<Json> {
    var embeds :- Get(contributor, "embeds");
    var users :- Get(embeds, "users");
    Get(users, "data")
  }

  /** `embed_data['relationships']['institutions']['links']['related']['href']`
      (lines 281-282). */
  function InstitutionsLink(user: Json): Result<Json> {
    var relationships :- Get(user, "relationships");
    var institutions :- Get(relationships, "institutions");
    var links :- Get(institutions, "links");
    var related :- Get(links, "related");
    Get(related, "href")
  }

  /** Lines 278-282, in their order of evaluation: each dict lookup may
      raise. A non-text href is modelled as a TypeError; `requests.get`
      would turn it into text with `str()` and then fail with
      MissingSchema, which is another exception escaping the same way. */
  function ContributorFields(contributor: Json): (r: Result<Fields>)
    ensures r.Ok? ==> EmbeddedUser(contributor).Ok?
    ensures r.Ok? ==> var attrs := Get(EmbeddedUser(contributor).value, "attributes");
      && attrs.Ok? && Get(attrs.value, "social").Ok? && Get(attrs.value, "full_name") == Ok(r.value.name)
      && GetOrNull(Get(attrs.value, "social").value, "orcid") == Ok(r.value.orcid)
    // the institutions URL is the text of the user's institutions link
    ensures r.Ok? ==> InstitutionsLink(EmbeddedUser(contributor).value) == Ok(JStr(r.value.institutionsUrl))
  {
    var user :- EmbeddedUser(contributor);
    var attrs :- Get(user, "attributes");
    var social :- Get(attrs, "social");
    var orcid :- GetOrNull(social, "orcid");
    var name :- Get(attrs, "full_name");
    var href :- InstitutionsLink(user);
    if href.JStr? then Ok(Fields(orcid, name, href.s)) else Err(TypeError)
  }

  /** `[institution['attributes']['name'] for institution in institution_data]`
      over a list. */
  function NamesOf(items: seq<Json>): (r: Result<seq<Json>>)
    ensures r.Ok? ==> |r.value| == |items|
    ensures r.Ok? ==> forall i :: 0 <= i < |items| ==> Get(items[i], "attributes").Ok? && Get(Get(items[i], "attributes").value, "name") == Ok(r.value[i])
  {
    if items == [] then Ok([])
    else
      var names :- NamesOf(items[..|items| - 1]);
      var attrs :- Get(items[|items| - 1], "attributes");
      var name :- Get(attrs, "name");
      Ok(names + [name])
  }

  /** The same comprehension over whatever `data` holds: iterating a dict
      or a string yields strings, which cannot be indexed by a key, so only
      an empty one gives an empty list; other values cannot be iterated. */
  function InstitutionNames(institutionData: Json): (r: Result<seq<Json>>)
    ensures institutionData.JArr? ==> r == NamesOf(institutionData.items)
    ensures !institutionData.JArr? ==> (r.Ok? <==> institutionData == JObj(map[]) || institutionData == JStr(""))
    ensures !institutionData.JArr? && r.Ok? ==> r.value == []
    ensures !institutionData.JArr? && r.Err? ==> r.error == TypeError
  {
    match institutionData
    case JArr(items) => NamesOf(items)
    case JObj(m) => if m == map[] then Ok([]) else Err(TypeError)
    case JStr(s) => if s == "" then Ok([]) else Err(TypeError)
    case _ => Err(TypeError)
  }

  /** Lines 283-290: the institutions request for `url`, its `data`, and
      the names comprehension over it. */
  function AffiliatedInstitutions(url: string, institutions: string -> Result<Json>): (r: Result<seq<Json>>)
    ensures r.Ok? ==> institutions(url).Ok? && Get(institutions(url).value, "data").Ok?
    ensures r.Ok? ==> r == InstitutionNames(Get(institutions(url).value, "data").value)
  {
    var body :- institutions(url);
    var data :- Get(body, "data");
    InstitutionNames(data)
  }

  /** One iteration of the loop of `get_contributors`. */
  function ProjectContributor(contributor: Json, institutions: string -> Result<Json>): (r: Result<Json>)
    ensures r.Ok? ==> r.value.JObj? && r.value.fields.Keys == {"ORCiD", "name", "affiliated_institutions"}
    ensures r.Ok? ==> ContributorFields(contributor).Ok?
    ensures r.Ok? ==> var fields := ContributorFields(contributor).value;
      && r.value.fields["ORCiD"] == fields.orcid
      && r.value.fields["name"] == fields.name
      // the institution names of the response fetched from the contributor's link
      && AffiliatedInstitutions(fields.institutionsUrl, institutions).Ok?
      && r.value.fields["affiliated_institutions"] == JArr(AffiliatedInstitutions(fields.institutionsUrl, institutions).value)
  {
    var fields :- ContributorFields(contributor);
    var names :- AffiliatedInstitutions(fields.institutionsUrl, institutions);
    Ok(JObj(map["ORCiD" := fields.orcid, "name" := fields.name, "affiliated_institutions" := JArr(names)]))
  }

  /** A loop applying `f`, which may raise, to each element in turn: the
      results in order, or the error of the first element that fails. */
  function MapResults<T, U>(f: T -> Result<U>, xs: seq<T>): (r: Result<seq<U>>)
    ensures r.Ok? ==> |r.value| == |xs|
  {
    if xs == [] then Ok([])
    else
      var ys :- MapResults(f, xs[..|xs| - 1]);
      var y :- f(xs[|xs| - 1]);
      Ok(ys + [y])
  }

  lemma {:induction false} MapResultsElementwise<T, U>(f: T -> Result<U>, xs: seq<T>)
    requires MapResults(f, xs).Ok?
    ensures forall i :: 0 <= i < |xs| ==> f(xs[i]) == Ok(MapResults(f, xs).value[i])
  {
    if xs != [] {
      var init := xs[..|xs| - 1];
      MapResultsElementwise(f, init);
      forall i | 0 <= i < |init| ensures xs[i] == init[i] {
      }
    }
  }

  /** Every element maps to a value: the loop completes. */
  lemma {:induction false} MapResultsAllOk<T, U>(f: T -> Result<U>, xs: seq<T>)
    requires forall i :: 0 <= i < |xs| ==> f(xs[i]).Ok?
    ensures MapResults(f, xs).Ok?
  {
    if xs != [] {
      var init := xs[..|xs| - 1];
      forall i | 0 <= i < |init| ensures f(init[i]).Ok? {
        assert init[i] == xs[i];
      }
      MapResultsAllOk(f, init);
    }
  }

  /** `xs[k]` is the first element that fails, with error `e`. */
  predicate FailsFirstAt<T, U>(f: T -> Result<U>, xs: seq<T>, k: int, e: Error) {
    0 <= k < |xs| && f(xs[k]) == Err(e) && forall j :: 0 <= j < k ==> f(xs[j]).Ok?
  }

  /** A failing loop fails with the error of its first failing element. */
  lemma {:induction false} MapResultsFirstFailure<T, U>(f: T -> Result<U>, xs: seq<T>)
    requires MapResults(f, xs).Err?
    ensures exists k :: FailsFirstAt(f, xs, k, MapResults(f, xs).error)
  {
    var init := xs[..|xs| - 1];
    var e := MapResults(f, xs).error;
    if MapResults(f, init).Err? {
      MapResultsFirstFailure(f, init);
      var k :| FailsFirstAt(f, init, k, e);
      forall j | 0 <= j <= k ensures init[j] == xs[j] {
      }
      assert FailsFirstAt(f, xs, k, e);
    } else {
      MapResultsElementwise(f, init);
      forall j | 0 <= j < |init| ensures f(xs[j]).Ok? {
        assert init[j] == xs[j];
      }
      assert FailsFirstAt(f, xs, |xs| - 1, e);
    }
  }

  /** The first failing element's error is the loop's error. */
  lemma MapResultsFailsAt<T, U>(f: T -> Result<U>, xs: seq<T>, k: nat, e: Error)
    requires FailsFirstAt(f, xs, k, e)
    ensures MapResults(f, xs) == Err(e)
  {
    var prefix := xs[..k];
    forall j | 0 <= j < |prefix| ensures f(prefix[j]).Ok? {
      assert prefix[j] == xs[j];
    }
    MapResultsAllOk(f, prefix);
    MapResultsAppend(f, xs, k);
    MapResultsFailsOnPrefix(f, xs, k + 1);
  }

  lemma MapResultsAppend<T, U>(f: T -> Result<U>, xs: seq<T>, i: nat)
    requires i < |xs|
    ensures MapResults(f, xs[..i + 1]) ==
      match MapResults(f, xs[..i])
      case Err(e) => Err(e)
      case Ok(ys) =>
        match f(xs[i])
        case Err(e) => Err(e)
        case Ok(y) => Ok(ys + [y])
  {
    assert xs[..i + 1][..i] == xs[..i];
  }

  lemma {:induction false} MapResultsFailsOnPrefix<T, U>(f: T -> Result<U>, xs: seq<T>, k: nat)
    requires k <= |xs| && MapResults(f, xs[..k]).Err?
    ensures MapResults(f, xs) == MapResults(f, xs[..k])
    decreases |xs| - k
  {
    if k < |xs| {
      MapResultsAppend(f, xs, k);
      MapResultsFailsOnPrefix(f, xs, k + 1);
    } else {
      assert xs[..k] == xs;
    }
  }

  /** The body of the loop of `get_contributors`, as a function of the
      contributor. */
  function Projector(institutions: string -> Result<Json>): Json -> Result<Json> {
    c => ProjectContributor(c, institutions)
  }

  /** The loop over `response['data']`: one record per contributor, in
      order, or the error of the first contributor that fails. */
  function ProjectAll(contributors: seq<Json>, institutions: string -> Result<Json>): (r: Result<seq<Json>>)
    ensures r.Ok? ==> |r.value| == |contributors|
  {
    MapResults(Projector(institutions), contributors)
  }

  /** `get_contributors(response)` as the `parse_json` callback: the
      response with its `data` replaced and everything else kept. */
  function ContributorsTransform(response: Response<Json>, institutions: string -> Result<Json>): (r: Result<Response<Json>>)
    ensures r.Ok? ==> r.value.next == response.next && r.value.linksMeta == response.linksMeta && r.value.meta == response.meta
    ensures r.Ok? <==> ProjectAll(response.data, institutions).Ok?
    ensures r.Ok? ==> r.value.data == ProjectAll(response.data, institutions).value
  {
    var records :- ProjectAll(response.data, institutions);
    Ok(response.(data := records))
  }

  /** Each record is its contributor's projection. */
  lemma ProjectAllElementwise(contributors: seq<Json>, institutions: string -> Result<Json>)
    requires ProjectAll(contributors, institutions).Ok?
    ensures forall i :: 0 <= i < |contributors| ==>
      ProjectContributor(contributors[i], institutions) == Ok(ProjectAll(contributors, institutions).value[i])
  {
    MapResultsElementwise(Projector(institutions), contributors);
  }

  /** When every contributor projects, the projection succeeds. */
  lemma ProjectAllSucceeds(contributors: seq<Json>, institutions: string -> Result<Json>)
    requires forall i :: 0 <= i < |contributors| ==> ProjectContributor(contributors[i], institutions).Ok?
    ensures ProjectAll(contributors, institutions).Ok?
  {
    MapResultsAllOk(Projector(institutions), contributors);
  }

  /** The projection fails exactly with the error of the first contributor
      that fails. */
  lemma ProjectAllFailsAtFirst(contributors: seq<Json>, k: nat, institutions: string -> Result<Json>)
    requires k < |contributors| && ProjectContributor(contributors[k], institutions).Err?
    requires forall j :: 0 <= j < k ==> ProjectContributor(contributors[j], institutions).Ok?
    ensures ProjectAll(contributors, institutions) == Err(ProjectContributor(contributors[k], institutions).error)
  {
    var f := Projector(institutions);
    assert FailsFirstAt(f, contributors, k, ProjectContributor(contributors[k], institutions).error);
    MapResultsFailsAt(f, contributors, k, ProjectContributor(contributors[k], institutions).error);
  }

  /** A failed projection has a first failing contributor, whose error it
      is. */
  lemma ProjectAllFailureIsFirst(contributors: seq<Json>, institutions: string -> Result<Json>)
    requires ProjectAll(contributors, institutions).Err?
    ensures exists k :: (0 <= k < |contributors|
      && ProjectContributor(contributors[k], institutions) == Err(ProjectAll(contributors, institutions).error)
      && forall j :: 0 <= j < k ==> ProjectContributor(contributors[j], institutions).Ok?)
  {
    var f := Projector(institutions);
    MapResultsFirstFailure(f, contributors);
    var k :| FailsFirstAt(f, contributors, k, ProjectAll(contributors, institutions).error);
  }

  /** `get_contributors` succeeds exactly when every contributor projects. */
  lemma ContributorsSucceedIffAllProject(response: Response<Json>, institutions: string -> Result<Json>)
    ensures ContributorsTransform(response, institutions).Ok? <==>
      forall i :: 0 <= i < |response.data| ==> ProjectContributor(response.data[i], institutions).Ok?
  {
    if ContributorsTransform(response, institutions).Ok? {
      ProjectAllElementwise(response.data, institutions);
    }
    if forall i :: 0 <= i < |response.data| ==> ProjectContributor(response.data[i], institutions).Ok? {
      ProjectAllSucceeds(response.data, institutions);
    }
  }

  /** One more contributor: its projection is appended, or the first error
      stays. */
  lemma ProjectAllAppend(contributors: seq<Json>, i: nat, institutions: string -> Result<Json>)
    requires i < |contributors|
    ensures ProjectAll(contributors[..i + 1], institutions) ==
      match ProjectAll(contributors[..i], institutions)
      case Err(e) => Err(e)
      case Ok(records) =>
        match ProjectContributor(contributors[i], institutions)
        case Err(e) => Err(e)
        case Ok(record) => Ok(records + [record])
  {
    MapResultsAppend(Projector(institutions), contributors, i);
  }

  /** Once a contributor fails, the whole projection fails with its error. */
  lemma ProjectAllFailsOnPrefix(contributors: seq<Json>, k: nat, institutions: string -> Result<Json>)
    requires k <= |contributors| && ProjectAll(contributors[..k], institutions).Err?
    ensures ProjectAll(contributors, institutions) == ProjectAll(contributors[..k], institutions)
  {
    MapResultsFailsOnPrefix(Projector(institutions), contributors, k);
  }

  /** The body of the loop of `get_contributors` for one contributor:
      read its fields, request its institutions, build its record. */
  method ProjectOne(contributor: Json, institutions: string -> Result<Json>) returns (r: Result<Json>)
    ensures r == ProjectContributor(contributor, institutions)
  {
    var fields := ContributorFields(contributor);
    if fields.Err? {
      return Err(fields.error);
    }
    var body := institutions(fields.value.institutionsUrl);
    if body.Err? {
      return Err(body.error);
    }
    var data := Get(body.value, "data");
    if data.Err? {
      return Err(data.error);
    }
    var names := InstitutionNames(data.value);
    if names.Err? {
      return Err(names.error);
    }
    r := Ok(JObj(map["ORCiD" := fields.value.orcid, "name" := fields.value.name, "affiliated_institutions" := JArr(names.value)]));
  }

  /** `get_contributors(response)`: the loop appending one record per
      contributor (reading its fields, requesting its institutions, building
      its record), then `response['data'] = contributor_data_list`. */
  method GetContributors(response: Response<Json>, institutions: string -> Result<Json>)
    returns (r: Result<Response<Json>>)
    ensures r == ContributorsTransform(response, institutions)
  {
    var contributorDataList: seq<Json> := [];
    var i := 0;
    while i < |response.data|
      invariant 0 <= i <= |response.data|
      invariant ProjectAll(response.data[..i], institutions) == Ok(contributorDataList)
    {
      ProjectAllAppend(response.data, i, institutions);
      var record := ProjectOne(response.data[i], institutions);
      if record.Err? {
        ProjectAllFailsOnPrefix(response.data, i + 1, institutions);
        return Err(record.error);
      }
      contributorDataList := contributorDataList + [record.value];
      i := i + 1;
    }
    assert response.data[..i] == response.data;
    r := Ok(response.(data := contributorDataList));
  }

  /** A contributor record as the registry's API embeds it: the user's
      full name, its ORCiD when one is set, and its institutions link. */
  function ApiContributor(fullName: string, orcid: Option<string>, href: string): Json {
    var social := if orcid.Some? then map["orcid" := JStr(orcid.value)] else map[];
    var attributes := JObj(map["full_name" := JStr(fullName), "social" := JObj(social)]);
    var links := JObj(map["related" := JObj(map["href" := JStr(href)])]);
    var relationships := JObj(map["institutions" := JObj(map["links" := links])]);
    var user := JObj(map["attributes" := attributes, "relationships" := relationships]);
    JObj(map["embeds" := JObj(map["users" := JObj(map["data" := user])])])
  }

  /** The institution objects of an institutions response, by name. */
  function ApiInstitutions(names: seq<string>): (items: seq<Json>)
    ensures |items| == |names|
  {
    seq(|names|, i requires 0 <= i < |names| => JObj(map["attributes" := JObj(map["name" := JStr(names[i])])]))
  }

  function Strings(names: seq<string>): (js: seq<Json>)
    ensures |js| == |names|
  {
    seq(|names|, i requires 0 <= i < |names| => JStr(names[i]))
  }

  /** The comprehension over institution objects yields their names, in
      order. */
  lemma {:induction false} NamesOfInstitutions(names: seq<string>)
    ensures NamesOf(ApiInstitutions(names)) == Ok(Strings(names))
  {
    if names != [] {
      var init := names[..|names| - 1];
      assert ApiInstitutions(names)[..|names| - 1] == ApiInstitutions(init);
      NamesOfInstitutions(init);
      assert Strings(names) == Strings(init) + [JStr(names[|names| - 1])];
    }
  }

  /** The fields read from an API contributor record. */
  lemma ApiContributorFields(fullName: string, orcid: Option<string>, href: string)
    ensures ContributorFields(ApiContributor(fullName, orcid, href)) ==
      Ok(Fields(if orcid.Some? then JStr(orcid.value) else JNull, JStr(fullName), href))
  {
    var c := ApiContributor(fullName, orcid, href);
    var user := EmbeddedUser(c);
    assert user.Ok?;
    var attrs := Get(user.value, "attributes");
    assert attrs.Ok?;
    var social := Get(attrs.value, "social");
    assert social.Ok? && social.value.JObj?;
    assert GetOrNull(social.value, "orcid") == Ok(if orcid.Some? then JStr(orcid.value) else JNull);
    assert Get(attrs.value, "full_name") == Ok(JStr(fullName));
    var rel := Get(user.value, "relationships");
    assert rel.Ok?;
    var inst := Get(rel.value, "institutions");
    assert inst.Ok?;
    var links := Get(inst.value, "links");
    assert links.Ok?;
    var related := Get(links.value, "related");
    assert related.Ok?;
    assert Get(related.value, "href") == Ok(JStr(href));
  }

  /** An API contributor record is projected to its ORCiD (null when it has
      none), its name and the names of the institutions its link returns. */
  lemma ProjectApiContributor(fullName: string, orcid: Option<string>, href: string, names: seq<string>,
                              institutions: string -> Result<Json>)
    requires institutions(href) == Ok(JObj(map["data" := JArr(ApiInstitutions(names))]))
    ensures ProjectContributor(ApiContributor(fullName, orcid, href), institutions) ==
      Ok(JObj(map["ORCiD" := (if orcid.Some? then JStr(orcid.value) else JNull),
                  "name" := JStr(fullName),
                  "affiliated_institutions" := JArr(Strings(names))]))
  {
    ApiContributorFields(fullName, orcid, href);
    NamesOfInstitutions(names);
    assert Get(JObj(map["data" := JArr(ApiInstitutions(names))]), "data") == Ok(JArr(ApiInstitutions(names)));
    assert AffiliatedInstitutions(href, institutions) == Ok(Strings(names));
  }

  /** The projection keeps one record per contributor, in order, and every
      other part of the response. */
  lemma ContributorsOnePerRecord(response: Response<Json>, institutions: string -> Result<Json>)
    requires ContributorsTransform(response, institutions).Ok?
    ensures var out := ContributorsTransform(response, institutions).value;
      && |out.data| == |response.data|
      && (forall i :: 0 <= i < |out.data| ==> Ok(out.data[i]) == ProjectContributor(response.data[i], institutions))
      && out == response.(data := out.data)
  {
    ProjectAllElementwise(response.data, institutions);
  }
}
