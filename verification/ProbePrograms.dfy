/** The program text that a spec row and its template stand for. */
module ProbePrograms {
  import opened Strings
  import opened Patterns
  import opened Tsv

  const PLACEHOLDER := "{{BODY}}"

  /** The program text of one spec row. */
  function Instantiate(row: Row, templates: map<string, string>): Result<string> {
    if "template" !in row then Failure(MissingColumn("template"))
    else if row["template"] !in templates then Failure(MissingTemplate(row["template"]))
    else
      var text := templates[row["template"]];
      if !Contains(text, PLACEHOLDER) then Success(text)
      else if "body" !in row then Failure(MissingColumn("body"))
      else Success(Replace(text, PLACEHOLDER, row["body"]))
  }

  /** The template, cut at the copies of `{{BODY}}`, and joined again with the body of the row; a template without one
      needs no body. */
  ghost predicate FilledFrom(template: string, row: Row, pieces: seq<string>, text: string) {
    && CutAt(template, "{{BODY}}", pieces)
    && (|pieces| > 1 ==> "body" in row)
    && text == Join(if "body" in row then row["body"] else "", pieces)
  }

  ghost predicate ProgramOf(row: Row, templates: map<string, string>, text: string) {
    && "template" in row && row["template"] in templates
    && exists pieces :: FilledFrom(templates[row["template"]], row, pieces, text)
  }

  lemma PlaceholderUnbordered()
    ensures Unbordered("{{BODY}}")
  {
    var p := "{{BODY}}";
    forall n | 0 < n < |p| ensures p[n..] != p[..|p| - n] {
      assert p[n..][0] == p[n] && p[..|p| - n][0] == '{';
      if n == 1 {
        assert p[n..][1] == 'B' && p[..|p| - n][1] == '{';
      }
    }
  }

  lemma {:induction false} MoreThanOne(pieces: seq<string>, pat: string)
    requires pat != "" && pieces != [] && forall p :: p in pieces ==> Lacks(p, pat)
    ensures Lacks(Join(pat, pieces), pat) <==> |pieces| == 1
  {
    assert pieces[0] in pieces;
    if |pieces| > 1 {
      var s := Join(pat, pieces);
      assert s[|pieces[0]|..|pieces[0]| + |pat|] == pat;
      assert Occurs(s, pat, |pieces[0]|);
    }
  }

  lemma OnePiece(s: string, pat: string)
    requires Lacks(s, pat)
    ensures CutAt(s, pat, [s])
  {
  }

  /** A row is instantiated as the text exactly when the text is its template with the body in every place for it. */
  lemma InstantiateExact(row: Row, templates: map<string, string>, text: string)
    ensures Instantiate(row, templates) == Success(text) <==> ProgramOf(row, templates, text)
  {
    if "template" in row && row["template"] in templates {
      var template := templates[row["template"]];
      PlaceholderUnbordered();
      ContainsMeaning(template, "{{BODY}}");
      if Contains(template, "{{BODY}}") {
        CopiedMany(template, row, text);
      } else {
        CopiedWhole(template, row, text);
      }
    }
  }

  lemma CopiedWhole(template: string, row: Row, text: string)
    requires Lacks(template, "{{BODY}}")
    ensures text == template <==> exists pieces :: FilledFrom(template, row, pieces, text)
  {
    OnePiece(template, "{{BODY}}");
    assert FilledFrom(template, row, [template], template);
    if pieces :| FilledFrom(template, row, pieces, text) {
      MoreThanOne(pieces, "{{BODY}}");
    }
  }

  lemma CopiedMany(template: string, row: Row, text: string)
    requires !Lacks(template, "{{BODY}}") && Unbordered("{{BODY}}")
    ensures ("body" in row && text == Replace(template, "{{BODY}}", row["body"]))
       <==> exists pieces :: FilledFrom(template, row, pieces, text)
  {
    if pieces :| FilledFrom(template, row, pieces, text) {
      MoreThanOne(pieces, "{{BODY}}");
    }
    if "body" in row {
      ReplaceExact(template, "{{BODY}}", row["body"], text);
      if text == Replace(template, "{{BODY}}", row["body"]) {
        var pieces :| CutAt(template, "{{BODY}}", pieces) && text == Join(row["body"], pieces);
        assert FilledFrom(template, row, pieces, text);
      }
    }
  }

  /** One place for the body: what stands before it and after it stays. */
  lemma OnePlace(row: Row, templates: map<string, string>, pre: string, post: string)
    requires "template" in row && row["template"] in templates && "body" in row
    requires templates[row["template"]] == pre + ("{{BODY}}" + post)
    requires Lacks(pre, "{{BODY}}") && Lacks(post, "{{BODY}}")
    ensures Instantiate(row, templates) == Success(pre + (row["body"] + post))
  {
    var pieces := [pre, post];
    assert pieces[1..] == [post];
    assert Join("{{BODY}}", [post]) == post && Join(row["body"], [post]) == post;
    assert FilledFrom(templates[row["template"]], row, pieces, pre + (row["body"] + post));
    InstantiateExact(row, templates, pre + (row["body"] + post));
  }

  /** Which error stops the generator at a row: the first of the template's name, its file and the body that is missing. */
  lemma InstantiateFails(row: Row, templates: map<string, string>, error: Error)
    ensures Instantiate(row, templates) == Failure(error) <==>
      if "template" !in row then error == MissingColumn("template")
      else if row["template"] !in templates then error == MissingTemplate(row["template"])
      else !Lacks(templates[row["template"]], "{{BODY}}") && "body" !in row && error == MissingColumn("body")
  {
    if "template" in row && row["template"] in templates {
      ContainsMeaning(templates[row["template"]], "{{BODY}}");
    }
  }
}
