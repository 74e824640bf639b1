/** `build_doi` (osf_pigeon/pigeon.py:219-220): the registration's DOI is
    `settings.DOI_FORMAT` formatted with the DataCite prefix and the guid.
    The formatting is modelled by the part of Python's `str.format` that
    named replacement fields and doubled braces use. */
module Doi {
  import opened Common

  /** `DOI_FORMAT` (settings/defaults.py:3). */
  const DoiFormat := "10.70102/fk2osf.io/{guid}"

  /** `DATACITE_PREFIX` (settings/defaults.py:6). */
  const DatacitePrefix := "10.70102"

  /** The text of `DoiFormat` before its one replacement field. */
  const DoiLiteral := "10.70102/fk2osf.io/"

  /** The position of the first `c` in `s`, if any. */
  function IndexOf(s: string, c: char): (r: Option<nat>)
    ensures r.Some? ==> r.value < |s| && s[r.value] == c && forall j :: 0 <= j < r.value ==> s[j] != c
    ensures r.None? ==> forall j :: 0 <= j < |s| ==> s[j] != c
  {
    if s == [] then None
    else if s[0] == c then Some(0)
    else
      match IndexOf(s[1..], c)
      case None => None
      case Some(k) => Some(k + 1)
  }

  function Prepend(p: string, r: Result<string>): (q: Result<string>)
    ensures q.Ok? <==> r.Ok?
    ensures q.Ok? ==> q.value == p + r.value
    ensures q.Err? ==> q == r
  {
    match r
    case Ok(s) => Ok(p + s)
    case Err(e) => Err(e)
  }

  /** A text free of braces, which `str.format` copies unchanged. */
  predicate NoBraces(s: string) {
    forall i :: 0 <= i < |s| ==> s[i] != '{' && s[i] != '}'
  }

  /** `template.format(**args)`: `{{` and `}}` stand for single braces, and
      `{name}` for the keyword argument `name` (KeyError when it is missing,
      IndexError for an empty or numeric field, which would name a
      positional argument); an unmatched brace, or a `{` inside a field,
      is a ValueError. Text is read left to right and the first problem
      is the one raised. */
  function Format(template: string, args: map<string, string>): (r: Result<string>)
    ensures r.Err? ==> r.error == ValueError || r.error == IndexError || r.error.KeyError?
    ensures r.Err? && r.error.KeyError? ==> r.error.key !in args && r.error.key != []
    decreases |template|
  {
    if template == [] then Ok([])
    else if template[0] == '{' then
      if |template| >= 2 && template[1] == '{' then Prepend("{", Format(template[2..], args))
      else
        match IndexOf(template[1..], '}')
        case None => Err(ValueError)
        case Some(k) =>
          var name := template[1..k + 1];
          if IndexOf(name, '{').Some? then Err(ValueError)
          else if name == [] || AllDigits(name) then Err(IndexError)
          else if name !in args then Err(KeyError(name))
          else Prepend(args[name], Format(template[k + 2..], args))
    else if template[0] == '}' then
      if |template| >= 2 && template[1] == '}' then Prepend("}", Format(template[2..], args))
      else Err(ValueError)
    else Prepend([template[0]], Format(template[1..], args))
  }

  /** Text without braces is copied through in front of the rest. */
  lemma {:induction false} FormatLiteral(lit: string, rest: string, args: map<string, string>)
    requires NoBraces(lit)
    ensures Format(lit + rest, args) == Prepend(lit, Format(rest, args))
  {
    if lit != [] {
      assert (lit + rest)[0] == lit[0];
      assert (lit + rest)[1..] == lit[1..] + rest;
      FormatLiteral(lit[1..], rest, args);
      assert Format(lit + rest, args) == Prepend([lit[0]], Prepend(lit[1..], Format(rest, args)));
      if Format(rest, args).Ok? {
        assert [lit[0]] + (lit[1..] + Format(rest, args).value) == lit + Format(rest, args).value;
      }
    } else {
      assert lit + rest == rest;
      if Format(rest, args).Ok? {
        assert lit + Format(rest, args).value == Format(rest, args).value;
      }
    }
  }

  /** A single named field is replaced by its argument. */
  lemma FormatField(name: string, args: map<string, string>)
    requires name != [] && NoBraces(name) && !AllDigits(name)
    ensures Format("{" + name + "}", args) == if name in args then Ok(args[name]) else Err(KeyError(name))
  {
    var t := "{" + name + "}";
    var closed := name + "}";
    assert t[1..] == closed;
    assert closed[|name|] == '}';
    assert forall j :: 0 <= j < |name| ==> closed[j] == name[j];
    assert IndexOf(closed, '}') == Some(|name|);
    assert t[1..|name| + 1] == name;
    assert IndexOf(name, '{').None?;
    assert t[0] == '{' && t[1] == name[0];
    assert t[|name| + 2..] == [];
    if name in args {
      assert args[name] + [] == args[name];
    }
  }

  /** `build_doi(guid)`. */
  function BuildDoi(guid: string): (doi: string)
    ensures doi == DoiLiteral + guid
  {
    DoiOfGuid(guid);
    Format(DoiFormat, map["prefix" := DatacitePrefix, "guid" := guid]).value
  }

  /** The pieces of `DoiFormat`: a literal text and the `guid` field. */
  lemma DoiFormatPieces()
    ensures DoiFormat == DoiLiteral + ("{" + "guid" + "}")
    ensures NoBraces(DoiLiteral)
    ensures "guid" != [] && NoBraces("guid") && !AllDigits("guid")
  {
    assert !IsDigit("guid"[0]);
  }

  /** The DOI template formats to its literal text followed by the guid,
      whatever the prefix argument. */
  lemma DoiOfGuid(guid: string, prefix: string := DatacitePrefix)
    ensures Format(DoiFormat, map["prefix" := prefix, "guid" := guid]) == Ok(DoiLiteral + guid)
  {
    var args := map["prefix" := prefix, "guid" := guid];
    DoiFormatPieces();
    FormatLiteral(DoiLiteral, "{" + "guid" + "}", args);
    FormatField("guid", args);
  }

  /** The template has no `{prefix}` field, so the configured DataCite
      prefix does not affect the DOI. */
  lemma BuildDoiIgnoresPrefix(guid: string, p: string, q: string)
    ensures Format(DoiFormat, map["prefix" := p, "guid" := guid]) == Format(DoiFormat, map["prefix" := q, "guid" := guid])
  {
    DoiOfGuid(guid, p);
    DoiOfGuid(guid, q);
  }

  /** Distinct guids get distinct DOIs, and the guid can be read back. */
  lemma BuildDoiInjective(g: string, h: string)
    requires BuildDoi(g) == BuildDoi(h)
    ensures g == h
  {
    assert g == BuildDoi(g)[|DoiLiteral|..];
    assert h == BuildDoi(h)[|DoiLiteral|..];
  }

  lemma DoiLiteralPrefix()
    ensures |DatacitePrefix| + 1 <= |DoiLiteral| && DoiLiteral[..|DatacitePrefix| + 1] == DatacitePrefix + "/"
  {
  }

  /** Every DOI lies under the DataCite prefix. */
  lemma BuildDoiUnderDatacitePrefix(guid: string)
    ensures IsPrefix(DatacitePrefix + "/", BuildDoi(guid))
  {
    DoiLiteralPrefix();
    var doi, n := BuildDoi(guid), |DatacitePrefix| + 1;
    assert doi[..n] == DoiLiteral[..n];
  }
}
