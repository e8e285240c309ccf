/** News lookup (`search_online`) and the rendering of news items into the markdown list
    that `generate_summary` puts into its prompt. */
module News {
  import opened PyValues

  /** One item of `news_results`: the triple `{title, link, snippet}`. */
  datatype NewsItem = NewsItem(title: string, link: string, snippet: string)

  /** One organic search result, with whichever of its fields the service sent. */
  type SearchResult = map<string, string>

  /** The search service's answer: the HTTP status, and the parsed body's `organic` list if it has one. */
  datatype SearchResponse = SearchResponse(status: int, organic: Option<seq<SearchResult>>)

  const StatusOk := 200
  const NoTitle := "No Title"
  const NoLink := "#"
  const NoSnippet := "No snippet available."

  /** `r.get(key, default)`. */
  function Get(r: SearchResult, key: string, default: string): string {
    if key in r then r[key] else default
  }

  /** The projection of one organic result: each field copied when present, replaced by its
      fixed placeholder when absent. */
  function Project(r: SearchResult): (n: NewsItem)
    ensures "title" in r ==> n.title == r["title"]
    ensures "title" !in r ==> n.title == NoTitle
    ensures "link" in r ==> n.link == r["link"]
    ensures "link" !in r ==> n.link == NoLink
    ensures "snippet" in r ==> n.snippet == r["snippet"]
    ensures "snippet" !in r ==> n.snippet == NoSnippet
  {
    NewsItem(Get(r, "title", NoTitle), Get(r, "link", NoLink), Get(r, "snippet", NoSnippet))
  }

  /** The list comprehension over the organic results: one item per result, in the same order. */
  function ProjectAll(rs: seq<SearchResult>): (ns: seq<NewsItem>)
    ensures |ns| == |rs|
    ensures forall i :: 0 <= i < |rs| ==> ns[i] == Project(rs[i])
  {
    if rs == [] then [] else [Project(rs[0])] + ProjectAll(rs[1..])
  }

  /** The query string sent to the search service. */
  function Query(location: string, problem: string): string {
    problem + " in " + location
  }

  /** `search_online(location, problem)`, the service being the function `search`. */
  function SearchOnline(location: string, problem: string, search: string -> SearchResponse)
    : (ns: seq<NewsItem>)
    ensures search(Query(location, problem)).status != StatusOk ==> ns == []
    ensures search(Query(location, problem)).status == StatusOk && search(Query(location, problem)).organic.None?
            ==> ns == []
    ensures search(Query(location, problem)).status == StatusOk && search(Query(location, problem)).organic.Some?
            ==> var rs := search(Query(location, problem)).organic.value;
                |ns| == |rs| && forall i :: 0 <= i < |rs| ==> ns[i] == Project(rs[i])
  {
    var response := search(Query(location, problem));
    if response.status == StatusOk then
      match response.organic
      case None => []
      case Some(rs) => ProjectAll(rs)
    else []
  }

  /** A news item as the search service would send it with every field present. */
  function AsResult(n: NewsItem): SearchResult {
    map["title" := n.title, "link" := n.link, "snippet" := n.snippet]
  }

  /** Projecting a complete result gives back exactly its fields: no placeholder replaces a sent value. */
  lemma ProjectAsResult(n: NewsItem)
    ensures Project(AsResult(n)) == n
  {
  }

  // ----- Rendering -----

  const NoNews := "No relevant news found"

  /** The markdown bullet `- **{title}**: {snippet} ([Source]({link}))`. */
  function Bullet(n: NewsItem): string {
    "- **" + n.title + "**: " + n.snippet + " ([Source](" + n.link + "))"
  }

  function Bullets(ns: seq<NewsItem>): (bs: seq<string>)
    ensures |bs| == |ns|
    ensures forall i :: 0 <= i < |ns| ==> bs[i] == Bullet(ns[i])
  {
    if ns == [] then [] else [Bullet(ns[0])] + Bullets(ns[1..])
  }

  /** `"\n".join(lines)`. */
  function JoinLines(lines: seq<string>): string {
    if lines == [] then []
    else if |lines| == 1 then lines[0]
    else lines[0] + "\n" + JoinLines(lines[1..])
  }

  /** `s.split("\n")`. */
  function SplitLines(s: string): (lines: seq<string>)
    ensures lines != []
  {
    if s == [] then [[]]
    else
      var rest := SplitLines(s[1..]);
      if s[0] == '\n' then [[]] + rest else [[s[0]] + rest[0]] + rest[1..]
  }

  /** `news_text`: one bullet per news item, joined by newlines. */
  function NewsText(ns: seq<NewsItem>): string {
    JoinLines(Bullets(ns))
  }

  /** `news_text if news_text else 'No relevant news found'`, as the prompt embeds it. */
  function NewsSection(ns: seq<NewsItem>): (t: string)
    ensures ns == [] ==> t == NoNews
    ensures ns != [] ==> t == NewsText(ns) && t != NoNews
  {
    NewsTextStart(ns);
    var text := NewsText(ns);
    if text != [] then text else NoNews
  }

  /** Rendered news that is not empty begins with the first bullet's `- **`. */
  lemma NewsTextStart(ns: seq<NewsItem>)
    ensures ns != [] ==> |NewsText(ns)| >= 4 && NewsText(ns)[..4] == "- **" && NewsText(ns) != NoNews
  {
    if ns != [] {
      var bs := Bullets(ns);
      assert JoinLines(bs)[..|bs[0]|] == bs[0];
      assert NewsText(ns)[0] == '-' && NoNews[0] == 'N';
    }
  }

  predicate NoNewline(s: string) {
    '\n' !in s
  }

  /** A newline-free string followed by more text splits into that string and the rest's lines. */
  lemma {:induction false} SplitPrefix(a: string, s: string)
    requires NoNewline(a)
    ensures SplitLines(a + s) == [a + SplitLines(s)[0]] + SplitLines(s)[1..]
  {
    if a != [] {
      assert (a + s)[0] == a[0] && (a + s)[1..] == a[1..] + s;
      SplitPrefix(a[1..], s);
      assert [a[0]] + (a[1..] + SplitLines(s)[0]) == a + SplitLines(s)[0];
    } else {
      assert a + s == s;
      assert a + SplitLines(s)[0] == SplitLines(s)[0];
      assert SplitLines(s) == [SplitLines(s)[0]] + SplitLines(s)[1..];
    }
  }

  /** Splitting joined lines gives the lines back, provided none of them holds a newline. */
  lemma {:induction false} SplitJoin(lines: seq<string>)
    requires lines != []
    requires forall i :: 0 <= i < |lines| ==> NoNewline(lines[i])
    ensures SplitLines(JoinLines(lines)) == lines
  {
    if |lines| == 1 {
      SplitPrefix(lines[0], []);
      assert lines[0] + [] == lines[0];
    } else {
      var rest := JoinLines(lines[1..]);
      SplitJoin(lines[1..]);
      SplitPrefix(lines[0], "\n" + rest);
      assert lines[0] + "\n" + rest == lines[0] + ("\n" + rest);
      assert ("\n" + rest)[0] == '\n' && ("\n" + rest)[1..] == rest;
      assert SplitLines("\n" + rest) == [[]] + lines[1..];
      assert lines[0] + [] == lines[0];
      assert lines == [lines[0]] + lines[1..];
    }
  }

  /** When no field holds a newline, the rendered news has exactly one line per item, its bullet. */
  lemma NewsTextLines(ns: seq<NewsItem>)
    requires ns != []
    requires forall i :: 0 <= i < |ns| ==>
      NoNewline(ns[i].title) && NoNewline(ns[i].link) && NoNewline(ns[i].snippet)
    ensures SplitLines(NewsText(ns)) == Bullets(ns)
    ensures |SplitLines(NewsText(ns))| == |ns|
  {
    var bs := Bullets(ns);
    forall i | 0 <= i < |bs|
      ensures NoNewline(bs[i])
    {
      assert bs[i] == Bullet(ns[i]);
    }
    SplitJoin(bs);
  }

  // ----- Summary -----

  const NoSummary := "No summary available."

  /** The model's answer to the prompt: a failure with the exception's text, or a response
      that carries text (`Some`) or is falsy (`None`). */
  type Generator = (string, string, seq<Record>, string) -> Result<Option<string>, string>

  /** `generate_summary(location, problem, complaints, news_results)`: the prompt embeds the
      location, the problem, the complaints and the rendered news section, and the model call
      is `generate` applied to those. */
  function GenerateSummary(location: string, problem: string, complaints: seq<Record>,
                           news: seq<NewsItem>, generate: Generator): (r: Result<string, string>)
    ensures r.Failure? <==> generate(location, problem, complaints, NewsSection(news)).Failure?
    ensures r.Failure? ==> generate(location, problem, complaints, NewsSection(news)) == Failure(r.error)
    ensures r.Success? ==> generate(location, problem, complaints, NewsSection(news)) == Success(Some(r.value))
                           || (generate(location, problem, complaints, NewsSection(news)) == Success(None) && r.value == NoSummary)
  {
    match generate(location, problem, complaints, NewsSection(news))
    case Failure(e) => Failure(e)
    case Success(Some(text)) => Success(text)
    case Success(None) => Success(NoSummary)
  }
}
