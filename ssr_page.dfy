/** The page-composition step shared by the long-running server (server/index.js) and the
    serverless function (netlify/functions/ssr.mjs): two first-occurrence replacements in the
    HTML shell, with the renderer and the state serialiser as opaque functions. */
module SsrPage {
  import opened Results
  import opened TodoList

  /** The renderer `render(url, initialData)`, which may throw. */
  type Renderer = (string, InitialData) -> Result<string>

  /** A state serialiser (`JSON.stringify`, or `serialize(_, {isJSON: true})`). */
  type Serializer = InitialData -> string

  const Outlet: string := "<!--ssr-outlet-->"
  const BodyEnd: string := "</body>"

  /** The two records both entry points start from. */
  const SeedTodos: seq<Todo> := [Todo(1, "Learn React SSR", false), Todo(2, "Build todo app", true)]

  /** The seed has distinct ids, one open and one completed record, and the first record the
      client adds to it gets id 3. */
  lemma SeedTodosWellFormed()
    ensures |SeedTodos| == 2 && UniqueIds(SeedTodos)
    ensures !SeedTodos[0].completed && SeedTodos[1].completed
    ensures NextId(SeedTodos) == 3
  {
  }

  const ScriptOpen: string := "<script>window.__INITIAL_DATA__="
  const ScriptClose: string := "</script>"

  /** The inline script that hands the serialised state to the client: the serialised text sits
      verbatim between the assignment to `window.__INITIAL_DATA__` and the closing tag. */
  function StateScript(serialized: string): (r: string)
    ensures |r| == |ScriptOpen| + |serialized| + |ScriptClose|
    ensures r[..|ScriptOpen|] == ScriptOpen
    ensures r[|ScriptOpen|..|r| - |ScriptClose|] == serialized
    ensures r[|r| - |ScriptClose|..] == ScriptClose
  {
    ScriptOpen + serialized + ScriptClose
  }

  predicate OccursAt(s: string, pat: string, i: int) {
    0 <= i && i + |pat| <= |s| && s[i..i + |pat|] == pat
  }

  ghost predicate Occurs(s: string, pat: string) {
    exists i :: OccursAt(s, pat, i)
  }

  /** `pat` occurs at `i` and nowhere before. */
  ghost predicate FirstAt(s: string, pat: string, i: int) {
    OccursAt(s, pat, i) && forall j :: 0 <= j < i ==> !OccursAt(s, pat, j)
  }

  /** The first occurrence of `pat` at or after `k`. */
  function FindFrom(s: string, pat: string, k: nat): (r: Option<nat>)
    ensures r.Some? ==> k <= r.value && OccursAt(s, pat, r.value)
    ensures r.Some? ==> forall j :: k <= j < r.value ==> !OccursAt(s, pat, j)
    ensures r.None? ==> forall j :: k <= j ==> !OccursAt(s, pat, j)
    decreases |s| - k
  {
    if k + |pat| > |s| then None
    else if s[k..k + |pat|] == pat then Some(k)
    else FindFrom(s, pat, k + 1)
  }

  /** `s.indexOf(pat)`, as `String.prototype.replace` locates a string pattern. */
  function FindFirst(s: string, pat: string): (r: Option<nat>)
    ensures r.Some? <==> Occurs(s, pat)
    ensures r.Some? ==> FirstAt(s, pat, r.value)
  {
    FindFrom(s, pat, 0)
  }

  /** `s.replace(pat, rep)` with a string pattern and a replacement free of `$` patterns: the
      first occurrence is replaced and all text around it kept; without one, `s` is returned. */
  function ReplaceFirst(s: string, pat: string, rep: string): (r: string)
    ensures !Occurs(s, pat) ==> r == s
    ensures forall i :: FirstAt(s, pat, i) ==>
      && |r| == |s| - |pat| + |rep|
      && r[..i] == s[..i]
      && r[i..i + |rep|] == rep
      && r[i + |rep|..] == s[i + |pat|..]
  {
    match FindFirst(s, pat)
    case None => s
    case Some(i) =>
      assert forall j :: FirstAt(s, pat, j) ==> j == i;
      s[..i] + rep + s[i + |pat|..]
  }

  /** The replacement spelled out at the first occurrence. */
  lemma ReplaceFirstAt(s: string, pat: string, rep: string, i: int)
    requires FirstAt(s, pat, i)
    ensures ReplaceFirst(s, pat, rep) == s[..i] + rep + s[i + |pat|..]
  {
    var r := ReplaceFirst(s, pat, rep);
    assert r == r[..i] + r[i..i + |rep|] + r[i + |rep|..];
  }

  /** Putting the pattern back where the replacement went gives the original string. */
  lemma ReplaceFirstUndo(s: string, pat: string, rep: string, i: int)
    requires FirstAt(s, pat, i)
    ensures var r := ReplaceFirst(s, pat, rep); r[..i] + pat + r[i + |rep|..] == s
  {
    var r := ReplaceFirst(s, pat, rep);
    assert s == s[..i] + s[i..i + |pat|] + s[i + |pat|..];
  }

  /** An occurrence in a text is an occurrence in any text ending with it, shifted by the front. */
  lemma OccursInSuffix(front: string, back: string, pat: string, k: int)
    requires OccursAt(back, pat, k)
    ensures OccursAt(front + back, pat, |front| + k)
  {
    assert (front + back)[|front| + k..|front| + k + |pat|] == back[k..k + |pat|];
  }

  /** Occurrences after the first one are still there, shifted by the change in length. */
  lemma LaterOccurrencesKept(s: string, pat: string, rep: string, i: int, j: int)
    requires FirstAt(s, pat, i) && OccursAt(s, pat, j) && j >= i + |pat|
    ensures OccursAt(ReplaceFirst(s, pat, rep), pat, j - |pat| + |rep|)
  {
    ReplaceFirstAt(s, pat, rep, i);
    var front := s[..i] + rep;
    var back := s[i + |pat|..];
    var k := j - (i + |pat|);
    assert back[k..k + |pat|] == s[j..j + |pat|];
    OccursInSuffix(front, back, pat, k);
    assert front + back == s[..i] + rep + s[i + |pat|..];
  }

  /** Replacing a marker by some text followed by the marker inserts the text just before the
      first occurrence of the marker. */
  lemma InsertBeforeFirst(s: string, marker: string, ins: string, i: int)
    requires FirstAt(s, marker, i)
    ensures ReplaceFirst(s, marker, ins + marker) == s[..i] + ins + s[i..]
  {
    var r := ReplaceFirst(s, marker, ins + marker);
    assert s[i..] == marker + s[i + |marker|..];
    assert r == r[..i] + r[i..i + |ins + marker|] + r[i + |ins + marker|..];
  }

  /** The page: the rendered markup in place of the first outlet marker, then the state script in
      front of the first `</body>` of that result. */
  function ComposePage(template: string, appHtml: string, serialized: string): (html: string)
    ensures !Occurs(template, Outlet) && !Occurs(template, BodyEnd) ==> html == template
  {
    ReplaceFirst(ReplaceFirst(template, Outlet, appHtml), BodyEnd, StateScript(serialized) + BodyEnd)
  }

  /** The first step replaces only the first outlet marker, or leaves the template as it is. */
  lemma ComposeFillsFirstOutlet(template: string, appHtml: string, serialized: string)
    ensures var filled := ReplaceFirst(template, Outlet, appHtml);
      && (!Occurs(template, Outlet) ==> filled == template)
      && forall i :: FirstAt(template, Outlet, i) ==> filled == template[..i] + appHtml + template[i + |Outlet|..]
  {
    var filled := ReplaceFirst(template, Outlet, appHtml);
    forall i | FirstAt(template, Outlet, i)
      ensures filled == template[..i] + appHtml + template[i + |Outlet|..]
    {
      assert filled == filled[..i] + filled[i..i + |appHtml|] + filled[i + |appHtml|..];
    }
  }

  /** The script goes immediately before the first `</body>` of the filled template, wherever it
      came from (the markup included); with no `</body>` no script is added. */
  lemma ComposeScriptBeforeBodyEnd(template: string, appHtml: string, serialized: string)
    ensures var filled := ReplaceFirst(template, Outlet, appHtml);
      var html := ComposePage(template, appHtml, serialized);
      && (!Occurs(filled, BodyEnd) ==> html == filled)
      && forall j :: FirstAt(filled, BodyEnd, j) ==> html == filled[..j] + StateScript(serialized) + filled[j..]
  {
    var filled := ReplaceFirst(template, Outlet, appHtml);
    forall j | FirstAt(filled, BodyEnd, j)
      ensures ComposePage(template, appHtml, serialized) == filled[..j] + StateScript(serialized) + filled[j..]
    {
      InsertBeforeFirst(filled, BodyEnd, StateScript(serialized), j);
    }
  }

  /** No proper prefix of the marker is also a suffix of it, because its first character does not
      recur; so an occurrence cannot straddle the end of a text and a following marker. */
  predicate LeadCharUnique(m: string) {
    |m| > 0 && forall k :: 0 < k < |m| ==> m[k] != m[0]
  }

  lemma MarkersLeadCharUnique()
    ensures LeadCharUnique(Outlet) && LeadCharUnique(BodyEnd)
  {
  }

  /** A marker that does not occur in `p` occurs first right after `p` in `p + m + rest`. */
  lemma {:induction false} FirstAfterPrefix(p: string, m: string, rest: string)
    requires LeadCharUnique(m) && !Occurs(p, m)
    ensures FirstAt(p + m + rest, m, |p|)
  {
    var s := p + m + rest;
    assert s[|p|..|p| + |m|] == m;
    forall j | 0 <= j < |p| ensures !OccursAt(s, m, j) {
      if j + |m| <= |p| {
        assert s[j..j + |m|] == p[j..j + |m|];
        assert !OccursAt(p, m, j);
      } else {
        assert s[|p|] == m[0];
        assert s[j..j + |m|][|p| - j] == m[0] != m[|p| - j];
      }
    }
  }

  /** For a shell with the outlet before the closing body tag, neither marker occurring earlier
      and no `</body>` in the markup or between the markers, the composed page is the shell text
      around the two markers, verbatim and in order, with the markup and the script in place. */
  lemma {:induction false} ComposeWellFormedShell(pre: string, mid: string, post: string, appHtml: string, serialized: string)
    requires !Occurs(pre, Outlet)
    requires !Occurs(pre + appHtml + mid, BodyEnd)
    ensures ComposePage(pre + Outlet + mid + BodyEnd + post, appHtml, serialized)
         == pre + appHtml + mid + StateScript(serialized) + BodyEnd + post
  {
    var tail := mid + BodyEnd + post;
    var template := pre + Outlet + mid + BodyEnd + post;
    assert template == pre + Outlet + tail;
    FillWellFormedShell(pre, tail, appHtml);
    var front := pre + appHtml + mid;
    assert pre + appHtml + tail == front + BodyEnd + post;
    ScriptWellFormedShell(front, post, StateScript(serialized));
    assert front + StateScript(serialized) + BodyEnd + post
        == pre + appHtml + mid + StateScript(serialized) + BodyEnd + post;
  }

  /** The `</body>` right after a `</body>`-free text is the one the script goes in front of. */
  lemma ScriptWellFormedShell(front: string, post: string, script: string)
    requires !Occurs(front, BodyEnd)
    ensures ReplaceFirst(front + BodyEnd + post, BodyEnd, script + BodyEnd) == front + script + BodyEnd + post
  {
    var filled := front + BodyEnd + post;
    MarkersLeadCharUnique();
    FirstAfterPrefix(front, BodyEnd, post);
    ReplaceFirstAt(filled, BodyEnd, script + BodyEnd, |front|);
    assert filled[..|front|] == front;
    assert filled[|front| + |BodyEnd|..] == post;
    assert front + (script + BodyEnd) + post == front + script + BodyEnd + post;
  }

  /** The outlet marker right after a marker-free prefix is the one the markup replaces. */
  lemma FillWellFormedShell(pre: string, tail: string, appHtml: string)
    requires !Occurs(pre, Outlet)
    ensures ReplaceFirst(pre + Outlet + tail, Outlet, appHtml) == pre + appHtml + tail
  {
    var template := pre + Outlet + tail;
    MarkersLeadCharUnique();
    FirstAfterPrefix(pre, Outlet, tail);
    ReplaceFirstAt(template, Outlet, appHtml, |pre|);
    assert template[..|pre|] == pre;
    assert template[|pre| + |Outlet|..] == tail;
  }

  /** A second outlet marker in the shell survives composition, so the page is not free of
      outlet markers unless the shell has exactly one. */
  lemma SecondOutletSurvives(appHtml: string, serialized: string)
    requires !Occurs(appHtml + Outlet, BodyEnd)
    ensures OccursAt(ComposePage(Outlet + Outlet + BodyEnd, appHtml, serialized), Outlet, |appHtml|)
  {
    var empty: string := [];
    var t := Outlet + Outlet + BodyEnd;
    assert !Occurs(empty, Outlet);
    assert empty + appHtml + Outlet == appHtml + Outlet;
    assert empty + Outlet + Outlet + BodyEnd + empty == t;
    ComposeWellFormedShell(empty, Outlet, empty, appHtml, serialized);
    var html := appHtml + Outlet + StateScript(serialized) + BodyEnd;
    assert empty + appHtml + Outlet + StateScript(serialized) + BodyEnd + empty == html;
    assert html[|appHtml|..|appHtml| + |Outlet|] == Outlet;
  }

  /** A `</body>` in the rendered markup takes the state script, ahead of the shell's own. */
  lemma MarkupBodyEndTakesScript(serialized: string)
    ensures ComposePage(Outlet + BodyEnd, BodyEnd, serialized) == StateScript(serialized) + BodyEnd + BodyEnd
  {
    MarkersLeadCharUnique();
    assert !Occurs([], Outlet);
    FirstAfterPrefix([], Outlet, BodyEnd);
    assert [] + Outlet + BodyEnd == Outlet + BodyEnd;
    ReplaceFirstAt(Outlet + BodyEnd, Outlet, BodyEnd, 0);
    assert (Outlet + BodyEnd)[|Outlet|..] == BodyEnd;
    assert !Occurs([], BodyEnd);
    FirstAfterPrefix([], BodyEnd, BodyEnd);
    assert [] + BodyEnd + BodyEnd == BodyEnd + BodyEnd;
    InsertBeforeFirst(BodyEnd + BodyEnd, BodyEnd, StateScript(serialized), 0);
  }

  // ---------------------------------------------------------------------------------------------
  // The render-and-compose pipeline of one request

  /** `{todos}`: the state handed to the renderer and serialised into the page; the client's
      initial-list copy reads the same records back out of it. */
  function StateOf(todos: seq<Todo>): (r: InitialData)
    ensures InitialTodos(Some(r)) == todos
  {
    InitialData(Some(todos))
  }

  /** One request's page, or the first error thrown: reading the shell, loading the renderer,
      rendering. The renderer and the serialiser are given the same state. */
  function RenderPage(url: string, state: InitialData, template: Result<string>, loaded: Result<Renderer>, serialize: Serializer): (r: Result<string>)
    ensures template.Err? ==> r == Err(template.error)
    ensures template.Ok? && loaded.Err? ==> r == Err(loaded.error)
    ensures template.Ok? && loaded.Ok? && loaded.value(url, state).Err? ==> r == Err(loaded.value(url, state).error)
    ensures r.Ok? <==> template.Ok? && loaded.Ok? && loaded.value(url, state).Ok?
    ensures r.Ok? ==> r.value == ComposePage(template.value, loaded.value(url, state).value, serialize(state))
  {
    match template
    case Err(e) => Err(e)
    case Ok(shell) =>
      match loaded
      case Err(e) => Err(e)
      case Ok(render) =>
        match render(url, state)
        case Err(e) => Err(e)
        case Ok(appHtml) => Ok(ComposePage(shell, appHtml, serialize(state)))
  }

  /** With a well-formed shell, a successful page is the shell with the markup rendered from the
      state at the outlet and that same state, serialised, in a script before `</body>`. */
  lemma RenderPageWellFormed(url: string, state: InitialData, pre: string, mid: string, post: string,
                             render: Renderer, serialize: Serializer)
    requires !Occurs(pre, Outlet)
    requires render(url, state).Ok?
    requires !Occurs(pre + render(url, state).value + mid, BodyEnd)
    ensures RenderPage(url, state, Ok(pre + Outlet + mid + BodyEnd + post), Ok(render), serialize)
         == Ok(pre + render(url, state).value + mid + StateScript(serialize(state)) + BodyEnd + post)
  {
    ComposeWellFormedShell(pre, mid, post, render(url, state).value, serialize(state));
  }
}
