/**
 * The research lookups: the study-type classifier, the query each of the three registries
 * receives (PubMed, ClinicalTrials.gov, openFDA), and the normalisation of their JSON replies
 * into flat records. Every lookup swallows failures: a failed request, a status that is not OK
 * or any exception while reading the reply gives an empty list.
 */
module ResearchService {
  import opened Wrappers
  import opened Text
  import opened JsonData
  import opened Http

  const PubMedBaseUrl := "https://eutils.ncbi.nlm.nih.gov/entrez/eutils"
  const ClinicalTrialsBaseUrl := "https://clinicaltrials.gov/api/query"
  const FdaBaseUrl := "https://api.fda.gov"

  const PubMedArticleUrl := "https://pubmed.ncbi.nlm.nih.gov/"
  const TrialPageUrl := "https://clinicaltrials.gov/ct2/show/"
  const FdaOverviewUrl := "https://www.accessdata.fda.gov/scripts/cder/daf/index.cfm?event=overview.process&ApplNo="

  // ---------------------------------------------------------------------------
  // Study-type classifier
  // ---------------------------------------------------------------------------

  const MetaAnalysisLabel := "Meta-analysis"
  const SystematicReviewLabel := "Systematic Review"
  const RctLabel := "RCT"
  const ClinicalTrialLabel := "Clinical Trial"
  const StudyLabel := "Study"

  const StudyTypeLabels: set<string> :=
    {MetaAnalysisLabel, SystematicReviewLabel, RctLabel, ClinicalTrialLabel, StudyLabel}

  /** Classifies a publication by the phrases in its lower-cased title; the first matching test wins. */
  function DetermineStudyType(title: string): (kind: string)
    ensures kind in StudyTypeLabels
  {
    var t := Lower(title);
    if Contains(t, "meta-analysis") || Contains(t, "meta analysis") then MetaAnalysisLabel
    else if Contains(t, "systematic review") then SystematicReviewLabel
    else if Contains(t, "randomized controlled trial") || Contains(t, "rct") then RctLabel
    else if Contains(t, "clinical trial") then ClinicalTrialLabel
    else StudyLabel
  }

  /** A classification rule: any of `phrases` occurring in the lower-cased title selects `verdict`. */
  datatype Rule = Rule(phrases: seq<string>, verdict: string)

  predicate Matches(rule: Rule, t: string) {
    exists k :: 0 <= k < |rule.phrases| && Contains(t, rule.phrases[k])
  }

  /** Reference reading of a priority-ordered rule table: the verdict of the first rule that matches. */
  function FirstMatch(rules: seq<Rule>, t: string, fallback: string): string {
    if rules == [] then fallback
    else if Matches(rules[0], t) then rules[0].verdict
    else FirstMatch(rules[1..], t, fallback)
  }

  /** The classifier's rules, highest priority first; titles matching none are a plain "Study". */
  const StudyTypeRules: seq<Rule> := [
    Rule(["meta-analysis", "meta analysis"], MetaAnalysisLabel),
    Rule(["systematic review"], SystematicReviewLabel),
    Rule(["randomized controlled trial", "rct"], RctLabel),
    Rule(["clinical trial"], ClinicalTrialLabel)
  ]

  /** In a rule table, the first matching rule decides, whatever later rules also match. */
  lemma {:induction false} FirstMatchingRuleWins(rules: seq<Rule>, t: string, fallback: string, k: nat)
    requires k < |rules| && Matches(rules[k], t)
    requires forall j :: 0 <= j < k ==> !Matches(rules[j], t)
    ensures FirstMatch(rules, t, fallback) == rules[k].verdict
  {
    if k > 0 {
      assert !Matches(rules[0], t);
      forall j | 0 <= j < k - 1 ensures !Matches(rules[1..][j], t) {
        assert rules[1..][j] == rules[j + 1];
      }
      FirstMatchingRuleWins(rules[1..], t, fallback, k - 1);
    }
  }

  /** When no rule matches, the table gives the fallback label. */
  lemma {:induction false} NoMatchingRuleGivesFallback(rules: seq<Rule>, t: string, fallback: string)
    requires forall j :: 0 <= j < |rules| ==> !Matches(rules[j], t)
    ensures FirstMatch(rules, t, fallback) == fallback
  {
    if rules != [] {
      assert !Matches(rules[0], t);
      forall j | 0 <= j < |rules| - 1 ensures !Matches(rules[1..][j], t) {
        assert rules[1..][j] == rules[j + 1];
      }
      NoMatchingRuleGivesFallback(rules[1..], t, fallback);
    }
  }

  /** The if/elif chain of the classifier is the first-match reading of its rule table. */
  lemma StudyTypeIsFirstMatch(title: string)
    ensures DetermineStudyType(title) == FirstMatch(StudyTypeRules, Lower(title), StudyLabel)
  {
    var t := Lower(title);
    var r := StudyTypeRules;
    assert Matches(r[0], t) <==> Contains(t, "meta-analysis") || Contains(t, "meta analysis") by {
      assert r[0].phrases[0] == "meta-analysis" && r[0].phrases[1] == "meta analysis";
    }
    assert Matches(r[1], t) <==> Contains(t, "systematic review") by {
      assert r[1].phrases[0] == "systematic review";
    }
    assert Matches(r[2], t) <==> Contains(t, "randomized controlled trial") || Contains(t, "rct") by {
      assert r[2].phrases[0] == "randomized controlled trial" && r[2].phrases[1] == "rct";
    }
    assert Matches(r[3], t) <==> Contains(t, "clinical trial") by {
      assert r[3].phrases[0] == "clinical trial";
    }
    var r1 := r[1..];
    var r2 := r1[1..];
    var r3 := r2[1..];
    assert r1[0] == r[1] && r2[0] == r[2] && r3[0] == r[3] && r3[1..] == [];
    assert r[0].verdict == MetaAnalysisLabel && r[1].verdict == SystematicReviewLabel;
    assert r[2].verdict == RctLabel && r[3].verdict == ClinicalTrialLabel;
    assert FirstMatch(r3, t, StudyLabel) == if Matches(r[3], t) then ClinicalTrialLabel else StudyLabel;
    assert FirstMatch(r2, t, StudyLabel) == if Matches(r[2], t) then RctLabel else FirstMatch(r3, t, StudyLabel);
    assert FirstMatch(r1, t, StudyLabel) == if Matches(r[1], t) then SystematicReviewLabel else FirstMatch(r2, t, StudyLabel);
    assert FirstMatch(r, t, StudyLabel) == if Matches(r[0], t) then MetaAnalysisLabel else FirstMatch(r1, t, StudyLabel);
  }

  /** "Study" is the answer exactly when none of the six phrases occurs in the lower-cased title. */
  lemma StudyTypeFallback(title: string)
    ensures DetermineStudyType(title) == StudyLabel <==>
      var t := Lower(title);
      !Contains(t, "meta-analysis") && !Contains(t, "meta analysis") && !Contains(t, "systematic review")
      && !Contains(t, "randomized controlled trial") && !Contains(t, "rct") && !Contains(t, "clinical trial")
  {
  }

  /** A title naming a meta-analysis is one, even when it also names a review, an RCT or a trial. */
  lemma MetaAnalysisTakesPriority(title: string)
    requires Contains(Lower(title), "meta-analysis") || Contains(Lower(title), "meta analysis")
    ensures DetermineStudyType(title) == MetaAnalysisLabel
  {
  }

  /** Only the lower-cased title matters: titles that agree after lower-casing get the same label. */
  lemma StudyTypeIgnoresCase(a: string, b: string)
    requires Lower(a) == Lower(b)
    ensures DetermineStudyType(a) == DetermineStudyType(b)
  {
  }

  /** "rct" is a bare substring test: any title containing it and no higher-priority phrase is an RCT. */
  lemma RctIsPlainSubstring(title: string)
    requires Contains(Lower(title), "rct")
    requires !Contains(Lower(title), "meta-analysis") && !Contains(Lower(title), "meta analysis")
    requires !Contains(Lower(title), "systematic review")
    ensures DetermineStudyType(title) == RctLabel
  {
  }

  /**
   * "infarction" contains "rct", so a title about infarction that names no meta-analysis or
   * systematic review, such as "Statins after myocardial infarction", is labelled RCT.
   */
  lemma InfarctionIsRct(title: string)
    requires Contains(Lower(title), "infarction")
    requires !Contains(Lower(title), "meta-analysis") && !Contains(Lower(title), "meta analysis")
    requires !Contains(Lower(title), "systematic review")
    ensures DetermineStudyType(title) == RctLabel
  {
    var w := "infarction";
    assert w[4..7] == [w[4], w[5], w[6]] == "rct";
    ContainsAt(w, "rct", 4);
    ContainsTransitive(Lower(title), w, "rct");
    RctIsPlainSubstring(title);
  }

  // ---------------------------------------------------------------------------
  // PubMed: esearch for ids, then esummary for their metadata
  // ---------------------------------------------------------------------------

  const PublicationTypeFilter :=
    "(\"randomized controlled trial\"[Publication Type] OR \"meta-analysis\"[Publication Type] OR \"systematic review\"[Publication Type])"

  /** The clause restricting the search to a MeSH heading; absent when no condition is given. */
  function MeshClause(condition: string): string {
    if condition != "" then " AND \"" + condition + "\"[MeSH Terms]" else ""
  }

  /** The part of the term matching the drug against title and abstract. */
  function TitleClause(drugName: string): string {
    "\"" + drugName + "\"[Title/Abstract]"
  }

  const FilterClause := " AND " + PublicationTypeFilter

  /**
   * The esearch `term`. The two branches differ only by the MeSH clause: both start with the
   * drug matched against title and abstract and end with the publication-type filter.
   */
  function PubMedTerm(drugName: string, condition: string): (term: string)
    ensures term == TitleClause(drugName) + MeshClause(condition) + FilterClause
  {
    if condition != "" then
      "\"" + drugName + "\"[Title/Abstract]" + " AND \"" + condition + "\"[MeSH Terms]" + FilterClause
    else
      assert TitleClause(drugName) + "" == TitleClause(drugName);
      "\"" + drugName + "\"[Title/Abstract]" + FilterClause
  }

  /** For a given drug, the term determines the condition: different conditions give different searches. */
  lemma PubMedTermDeterminesCondition(drugName: string, c1: string, c2: string)
    requires PubMedTerm(drugName, c1) == PubMedTerm(drugName, c2)
    ensures c1 == c2
  {
    MiddleDetermined(TitleClause(drugName), MeshClause(c1), MeshClause(c2), FilterClause);
    MeshClauseInjective(c1, c2);
  }

  /** The MeSH clause names its condition: different conditions give different clauses. */
  lemma MeshClauseInjective(c1: string, c2: string)
    requires MeshClause(c1) == MeshClause(c2)
    ensures c1 == c2
  {
    if c1 != "" && c2 != "" {
      MiddleDetermined(" AND \"", c1, c2, "\"[MeSH Terms]");
    }
  }

  /** The esearch call: the PubMed database, the term, at most five ids, a JSON reply. */
  function EsearchRequest(drugName: string, condition: string): (r: Request)
    ensures r.url == PubMedBaseUrl + "/esearch.fcgi"
    ensures |r.params| == 4 && r.params[0] == ("db", "pubmed") && r.params[2] == ("retmax", "5")
      && r.params[3] == ("retmode", "json")
    ensures r.params[1].0 == "term" && r.params[1].1 == TitleClause(drugName) + MeshClause(condition) + FilterClause
  {
    Request(PubMedBaseUrl + "/esearch.fcgi",
      [("db", "pubmed"), ("term", PubMedTerm(drugName, condition)), ("retmax", "5"), ("retmode", "json")])
  }

  /** The esummary call: the PubMed database, the ids separated by commas, a JSON reply. */
  function EsummaryRequest(ids: seq<string>): (r: Request)
    ensures r.url == PubMedBaseUrl + "/esummary.fcgi"
    ensures |r.params| == 3 && r.params[0] == ("db", "pubmed") && r.params[2] == ("retmode", "json")
    ensures r.params[1].0 == "id" && (ids != [] ==> StartsWith(r.params[1].1, ids[0]))
  {
    Request(PubMedBaseUrl + "/esummary.fcgi", [("db", "pubmed"), ("id", Join(ids, ",")), ("retmode", "json")])
  }

  /** The esummary call asks for exactly the ids the esearch call returned, in order. */
  lemma SummaryRequestCarriesSearchIds(ids: seq<string>)
    requires |ids| >= 1
    requires forall k :: 0 <= k < |ids| ==> ',' !in ids[k]
    ensures EsummaryRequest(ids).params[1].0 == "id"
    ensures Split(EsummaryRequest(ids).params[1].1, ',') == ids
  {
    SplitJoin(ids, ',');
  }

  /**
   * `search_data.get('esearchresult', {}).get('idlist', [])`. A false value (an empty list among
   * others) gives no ids; a list of strings gives them in order; anything else makes `','.join`
   * raise (a non-empty string or dict, which Python would iterate, is counted with these).
   */
  function SearchIds(body: Json): (r: Option<seq<string>>)
    ensures !body.Obj? ==> r.None?
    ensures body.Obj? && "esearchresult" !in body.fields ==> r == Some([])
    ensures body.Obj? && "esearchresult" in body.fields && !body.fields["esearchresult"].Obj? ==> r.None?
    ensures body.Obj? && "esearchresult" in body.fields && body.fields["esearchresult"].Obj? ==>
      var found := body.fields["esearchresult"].fields;
      ("idlist" !in found ==> r == Some([]))
      && ("idlist" in found && !Truthy(found["idlist"]) ==> r == Some([]))
      && ("idlist" in found && Truthy(found["idlist"]) && !found["idlist"].Arr? ==> r.None?)
      && ("idlist" in found && found["idlist"].Arr? && found["idlist"].items != [] ==>
            (r.Some? <==> forall k :: 0 <= k < |found["idlist"].items| ==> found["idlist"].items[k].Str?)
            && (r.Some? ==>
                  |r.value| == |found["idlist"].items|
                  && forall k :: 0 <= k < |r.value| ==> found["idlist"].items[k] == Str(r.value[k])))
  {
    match Get(body, "esearchresult", Obj(map[]))
    case None => None
    case Some(found) =>
      match Get(found, "idlist", Arr([]))
      case None => None
      case Some(idlist) =>
        if !Truthy(idlist) then Some([])
        else if idlist.Arr? && forall k :: 0 <= k < |idlist.items| ==> idlist.items[k].Str? then
          var ids := seq(|idlist.items|, k requires 0 <= k < |idlist.items| => idlist.items[k].s);
          assert idlist == Arr(seq(|ids|, k requires 0 <= k < |ids| => Str(ids[k])));
          Some(ids)
        else None
  }

  /** One normalised PubMed article. */
  datatype Article = Article(
    pmid: string, title: string, authors: string, journal: Json, year: string, studyType: string, url: string)

  /** `author.get('name', '')`, which `', '.join` needs to be a string. */
  function AuthorName(author: Json): (r: Option<string>)
    ensures r.Some? <==> author.Obj? && ("name" !in author.fields || author.fields["name"].Str?)
    ensures r.Some? && "name" in author.fields ==> r.value == author.fields["name"].s
    ensures r.Some? && "name" !in author.fields ==> r.value == ""
  {
    match Get(author, "name", Str(""))
    case Some(Str(name)) => Some(name)
    case _ => None
  }

  function AuthorNames(authors: seq<Json>): (r: Option<seq<string>>)
    ensures r.Some? ==> |r.value| == |authors|
    ensures r.Some? ==> forall k :: 0 <= k < |authors| ==> AuthorName(authors[k]) == Some(r.value[k])
    ensures r.None? <==> exists k :: 0 <= k < |authors| && AuthorName(authors[k]).None?
  {
    if authors == [] then Some([])
    else
      match (AuthorName(authors[0]), AuthorNames(authors[1..]))
      case (Some(n), Some(ns)) => Some([n] + ns)
      case _ => None
  }

  /**
   * The `authors` field from `article_data.get('authors', [])`: the names of the first three
   * entries of a list, joined by ", ". An empty string slices to nothing; any other value
   * cannot be sliced, or yields entries without `get`.
   */
  function AuthorsField(authors: Json): (r: Option<string>)
    ensures authors.Arr? ==>
      (r.Some? <==> forall k :: 0 <= k < |authors.items| && k < 3 ==> AuthorName(authors.items[k]).Some?)
    ensures authors.Str? ==> r == (if authors.s == "" then Some("") else None)
    ensures !authors.Arr? && !authors.Str? ==> r.None?
  {
    match authors
    case Arr(xs) =>
      (match AuthorNames(xs[..if |xs| < 3 then |xs| else 3])
       case Some(names) => Some(Join(names, ", "))
       case None => None)
    case Str(s) => if s == "" then Some("") else None
    case _ => None
  }

  /** Authors after the third never reach the record. */
  lemma AuthorsIgnoreBeyondThird(xs: seq<Json>, more: seq<Json>)
    requires |xs| >= 3
    ensures AuthorsField(Arr(xs + more)) == AuthorsField(Arr(xs))
  {
    assert (xs + more)[..3] == xs[..3];
  }

  /** With three or fewer readable authors, every name (empty when missing) appears, in order. */
  lemma AuthorsOfShortList(xs: seq<Json>, names: seq<string>)
    requires |xs| <= 3 && |names| == |xs|
    requires forall k :: 0 <= k < |xs| ==> AuthorName(xs[k]) == Some(names[k])
    ensures AuthorsField(Arr(xs)) == Some(Join(names, ", "))
  {
    assert xs[..|xs|] == xs;
    var r := AuthorNames(xs);
    assert r.Some?;
    assert r.value == names;
  }

  /**
   * The `year` field: empty when `pubdate` is absent or false, otherwise the first
   * whitespace-separated token of the date string. A date of only whitespace has no token,
   * and `[0]` raises; a non-string date has no `split`.
   */
  function YearField(article: map<string, Json>): (r: Option<string>)
    ensures "pubdate" !in article || !Truthy(article["pubdate"]) ==> r == Some("")
    ensures "pubdate" in article && Truthy(article["pubdate"]) && !article["pubdate"].Str? ==> r.None?
    ensures "pubdate" in article && article["pubdate"].Str? ==>
      var date := article["pubdate"].s;
      (r.None? <==> date != "" && IsBlank(date))
      && (r.Some? && date != "" ==>
            r.value != "" && StartsWith(LStrip(date), r.value)
            && (forall i :: 0 <= i < |r.value| ==> !IsSpace(r.value[i]))
            && (|r.value| == |LStrip(date)| || IsSpace(LStrip(date)[|r.value|])))
  {
    if "pubdate" in article && Truthy(article["pubdate"]) then
      match article["pubdate"]
      case Str(date) => FirstToken(date)
      case _ => None
    else Some("")
  }

  /** The record for one esummary entry; `None` where building the dict raises. */
  function ArticleFor(pmid: string, entry: Json): (r: Option<Article>)
    ensures r.Some? <==>
      entry.Obj? && Get(entry, "title", Str("")).value.Str?
      && AuthorsField(Get(entry, "authors", Arr([])).value).Some? && YearField(entry.fields).Some?
    ensures r.Some? ==> Get(entry, "title", Str("")) == Some(Str(r.value.title))
    ensures r.Some? ==> AuthorsField(Get(entry, "authors", Arr([])).value) == Some(r.value.authors)
    ensures r.Some? ==> Get(entry, "fulljournalname", Str("")) == Some(r.value.journal)
    ensures r.Some? ==> r.value.pmid == pmid && r.value.url == PubMedArticleUrl + pmid + "/"
    ensures r.Some? ==> r.value.studyType == DetermineStudyType(r.value.title)
    ensures r.Some? ==> YearField(entry.fields) == Some(r.value.year)
  {
    match entry
    case Obj(m) =>
      var title := if "title" in m then m["title"] else Str("");
      var authors := AuthorsField(if "authors" in m then m["authors"] else Arr([]));
      var journal := if "fulljournalname" in m then m["fulljournalname"] else Str("");
      var year := YearField(m);
      if title.Str? && authors.Some? && year.Some? then
        Some(Article(pmid, title.s, authors.value, journal, year.value, DetermineStudyType(title.s),
                     PubMedArticleUrl + pmid + "/"))
      else None   // a non-string title has no `lower`
    case _ => None
  }

  /** The ids that have an entry in the esummary `result`, in esearch order. */
  function Present(ids: seq<string>, result: map<string, Json>): (r: seq<string>)
    ensures |r| <= |ids|
  {
    if ids == [] then []
    else (if ids[0] in result then [ids[0]] else []) + Present(ids[1..], result)
  }

  /**
   * The article list built from the ids and the esummary `result`, as the loop over the ids
   * builds it: an id without an entry is skipped, an entry that cannot be read aborts the search.
   */
  function ArticlesFrom(ids: seq<string>, result: Json): (r: Option<seq<Article>>)
    ensures r.Some? ==> |r.value| <= |ids|
    ensures r.Some? ==> forall k :: 0 <= k < |r.value| ==>
      r.value[k].pmid in ids && r.value[k].url == PubMedArticleUrl + r.value[k].pmid + "/"
    ensures r.Some? && !result.Obj? ==> r.value == []
  {
    if ids == [] then Some([])
    else
      match Lookup(result, ids[0])
      case None => None
      case Some(None) => ArticlesFrom(ids[1..], result)
      case Some(Some(entry)) =>
        match (ArticleFor(ids[0], entry), ArticlesFrom(ids[1..], result))
        case (Some(a), Some(rest)) => Some([a] + rest)
        case _ => None
  }

  /**
   * With a dict `result`, the articles are exactly the entries of the ids it holds, one per
   * occurrence and in esearch order.
   */
  lemma {:induction false} ArticlesFollowSearchOrder(ids: seq<string>, result: map<string, Json>, arts: seq<Article>)
    requires ArticlesFrom(ids, Obj(result)) == Some(arts)
    ensures |arts| == |Present(ids, result)|
    ensures forall k :: 0 <= k < |arts| ==>
      var pmid := Present(ids, result)[k];
      arts[k].pmid == pmid && pmid in result && ArticleFor(pmid, result[pmid]) == Some(arts[k])
  {
    if ids != [] {
      var present := Present(ids, result);
      if ids[0] in result {
        var a := ArticleFor(ids[0], result[ids[0]]).value;
        var rest := ArticlesFrom(ids[1..], Obj(result)).value;
        assert arts == [a] + rest;
        ArticlesFollowSearchOrder(ids[1..], result, rest);
        assert present == [ids[0]] + Present(ids[1..], result);
      } else {
        ArticlesFollowSearchOrder(ids[1..], result, arts);
        assert present == Present(ids[1..], result);
      }
    }
  }

  /** With a dict `result`, the whole list fails exactly when the entry of some listed id cannot be read. */
  lemma {:induction false} ArticlesFailOnAnyBadEntry(ids: seq<string>, result: map<string, Json>)
    ensures ArticlesFrom(ids, Obj(result)).None? <==>
      exists k :: 0 <= k < |ids| && ids[k] in result && ArticleFor(ids[k], result[ids[k]]).None?
  {
    if ids != [] {
      ArticlesFailOnAnyBadEntry(ids[1..], result);
      if ArticlesFrom(ids[1..], Obj(result)).None? {
        var k :| 0 <= k < |ids[1..]| && ids[1..][k] in result && ArticleFor(ids[1..][k], result[ids[1..][k]]).None?;
        assert ids[k + 1] == ids[1..][k];
      } else {
        forall k | 1 <= k < |ids| && ids[k] in result
          ensures ArticleFor(ids[k], result[ids[k]]).Some?
        {
          assert ids[k] == ids[1..][k - 1];
        }
      }
    }
  }

  /** What `search_pubmed` returns, given the replies `fetch` gives to its requests. */
  function PubMedLookup(drugName: string, condition: string, fetch: Request -> Reply): seq<Article> {
    match fetch(EsearchRequest(drugName, condition))
    case Failed => []
    case Delivered(body) =>
      match SearchIds(body)
      case None => []
      case Some(ids) =>
        if ids == [] then []
        else
          match fetch(EsummaryRequest(ids))
          case Failed => []
          case Delivered(summary) =>
            match Get(summary, "result", Obj(map[]))
            case None => []
            case Some(result) => ArticlesFrom(ids, result).GetOr([])
  }

  /** The requests `search_pubmed` sends: always the esearch, then the esummary only when ids came back. */
  function PubMedCalls(drugName: string, condition: string, fetch: Request -> Reply): seq<Request> {
    var search := EsearchRequest(drugName, condition);
    match fetch(search)
    case Delivered(body) =>
      (match SearchIds(body)
       case Some(ids) => if ids == [] then [search] else [search, EsummaryRequest(ids)]
       case None => [search])
    case Failed => [search]
  }

  /** A search that finds no ids ends with no articles, and the esummary service is never asked. */
  lemma PubMedWithoutIdsSkipsSummary(drugName: string, condition: string, fetch: Request -> Reply)
    requires fetch(EsearchRequest(drugName, condition)).Delivered?
    requires SearchIds(fetch(EsearchRequest(drugName, condition)).body) == Some([])
    ensures PubMedLookup(drugName, condition, fetch) == []
    ensures PubMedCalls(drugName, condition, fetch) == [EsearchRequest(drugName, condition)]
  {
  }

  /** Every article returned comes from the ids of the esearch reply, which the esummary call asked for. */
  lemma PubMedArticlesComeFromSearch(drugName: string, condition: string, fetch: Request -> Reply)
    ensures var arts := PubMedLookup(drugName, condition, fetch);
      var search := fetch(EsearchRequest(drugName, condition));
      arts != [] ==>
        search.Delivered? && SearchIds(search.body).Some?
        && var ids := SearchIds(search.body).value;
        PubMedCalls(drugName, condition, fetch) == [EsearchRequest(drugName, condition), EsummaryRequest(ids)]
        && |arts| <= |ids|
        && forall k :: 0 <= k < |arts| ==> arts[k].pmid in ids && arts[k].url == PubMedArticleUrl + arts[k].pmid + "/"
  {
    var search := fetch(EsearchRequest(drugName, condition));
    if search.Delivered? && SearchIds(search.body).Some? && SearchIds(search.body).value != [] {
      var ids := SearchIds(search.body).value;
      var summary := fetch(EsummaryRequest(ids));
      if summary.Delivered? && Get(summary.body, "result", Obj(map[])).Some? {
        var result := Get(summary.body, "result", Obj(map[])).value;
        assert PubMedLookup(drugName, condition, fetch) == ArticlesFrom(ids, result).GetOr([]);
      }
    }
  }

  /** `Some(acc + rest)`, and the failure when the rest failed. */
  function Prepend<T>(acc: seq<T>, rest: Option<seq<T>>): Option<seq<T>> {
    match rest
    case Some(xs) => Some(acc + xs)
    case None => None
  }

  /** The loop of `search_pubmed` over the ids: one record per id with an entry, `None` once an entry raises. */
  method CollectArticles(ids: seq<string>, result: Json) returns (r: Option<seq<Article>>)
    ensures r == ArticlesFrom(ids, result)
  {
    var articles: seq<Article> := [];
    var i := 0;
    assert ids[0..] == ids;
    assert ArticlesFrom(ids, result).Some? ==> [] + ArticlesFrom(ids, result).value == ArticlesFrom(ids, result).value;
    while i < |ids|
      invariant 0 <= i <= |ids|
      invariant ArticlesFrom(ids, result) == Prepend(articles, ArticlesFrom(ids[i..], result))
    {
      ghost var rest := ArticlesFrom(ids[i + 1..], result);
      assert ids[i..][1..] == ids[i + 1..];
      var entry := Lookup(result, ids[i]);
      if entry.None? {
        return None;
      }
      if entry.value.Some? {
        var article := ArticleFor(ids[i], entry.value.value);
        if article.None? {
          return None;
        }
        assert ArticlesFrom(ids[i..], result) == if rest.Some? then Some([article.value] + rest.value) else None;
        if rest.Some? {
          assert articles + ([article.value] + rest.value) == articles + [article.value] + rest.value;
        }
        articles := articles + [article.value];
      }
      i := i + 1;
    }
    assert ids[i..] == [];
    assert articles + [] == articles;
    return Some(articles);
  }

  /** `search_pubmed`: the esearch GET, the esummary GET when ids came back, then the loop over the ids. */
  method SearchPubMed(drugName: string, condition: string, fetch: Request -> Reply)
    returns (articles: seq<Article>, calls: seq<Request>)
    ensures articles == PubMedLookup(drugName, condition, fetch)
    ensures calls == PubMedCalls(drugName, condition, fetch)
  {
    var search := EsearchRequest(drugName, condition);
    calls := [search];
    articles := [];
    var reply := fetch(search);
    if reply.Failed? {
      return;
    }
    var found := SearchIds(reply.body);
    if found.None? || found.value == [] {
      return;
    }
    var ids := found.value;
    var summary := EsummaryRequest(ids);
    calls := calls + [summary];
    reply := fetch(summary);
    if reply.Failed? {
      return;
    }
    var result := Get(reply.body, "result", Obj(map[]));
    if result.None? {
      return;
    }
    var collected := CollectArticles(ids, result.value);
    articles := collected.GetOr([]);
  }

  // ---------------------------------------------------------------------------
  // Shared: one record per reply entry, in order
  // ---------------------------------------------------------------------------

  /** Applies `f` to every entry, keeping the order; the whole list fails when one entry does. */
  function MapAll<T>(xs: seq<Json>, f: Json -> Option<T>): (r: Option<seq<T>>)
    ensures r.Some? ==> |r.value| == |xs|
  {
    if xs == [] then Some([])
    else
      match (f(xs[0]), MapAll(xs[1..], f))
      case (Some(y), Some(ys)) => Some([y] + ys)
      case _ => None
  }

  /** A successful list holds, at each position, the record of the entry at that position. */
  lemma {:induction false} MapAllKeepsOrder<T>(xs: seq<Json>, f: Json -> Option<T>)
    requires MapAll(xs, f).Some?
    ensures forall k :: 0 <= k < |xs| ==> f(xs[k]) == Some(MapAll(xs, f).value[k])
  {
    if xs != [] {
      MapAllKeepsOrder(xs[1..], f);
      forall k | 1 <= k < |xs| ensures f(xs[k]) == Some(MapAll(xs, f).value[k]) {
        assert xs[k] == xs[1..][k - 1];
      }
    }
  }

  /** The list fails exactly when some entry fails. */
  lemma {:induction false} MapAllFailsIffSomeEntryFails<T>(xs: seq<Json>, f: Json -> Option<T>)
    ensures MapAll(xs, f).None? <==> exists k :: 0 <= k < |xs| && f(xs[k]).None?
  {
    if xs != [] {
      MapAllFailsIffSomeEntryFails(xs[1..], f);
      if f(xs[0]).Some? {
        if MapAll(xs[1..], f).None? {
          var k :| 0 <= k < |xs[1..]| && f(xs[1..][k]).None?;
          assert xs[k + 1] == xs[1..][k];
        } else {
          forall k | 1 <= k < |xs| ensures f(xs[k]).Some? {
            assert xs[k] == xs[1..][k - 1];
          }
        }
      }
    }
  }

  /** The loop shared by `search_clinical_trials` and `search_fda`: append one record per entry, `None` once one raises. */
  method CollectAll<T>(xs: seq<Json>, f: Json -> Option<T>) returns (r: Option<seq<T>>)
    ensures r == MapAll(xs, f)
  {
    var records: seq<T> := [];
    var i := 0;
    assert xs[0..] == xs;
    assert MapAll(xs, f).Some? ==> [] + MapAll(xs, f).value == MapAll(xs, f).value;
    while i < |xs|
      invariant 0 <= i <= |xs|
      invariant MapAll(xs, f) == Prepend(records, MapAll(xs[i..], f))
    {
      var record := f(xs[i]);
      ghost var rest := MapAll(xs[i + 1..], f);
      assert xs[i..][1..] == xs[i + 1..];
      assert MapAll(xs[i..], f) == if record.Some? && rest.Some? then Some([record.value] + rest.value) else None;
      if record.None? {
        return None;
      }
      if rest.Some? {
        assert records + ([record.value] + rest.value) == records + [record.value] + rest.value;
      }
      records := records + [record.value];
      i := i + 1;
    }
    assert xs[i..] == [];
    assert records + [] == records;
    return Some(records);
  }

  // ---------------------------------------------------------------------------
  // ClinicalTrials.gov
  // ---------------------------------------------------------------------------

  const TrialFields := "NCTId,BriefTitle,OverallStatus,Phase,Condition,InterventionName"

  /** The `expr` parameter: the drug alone, or the drug AND the condition when one is given. */
  function ClinicalTrialsExpr(drugName: string, condition: string): (expr: string)
    ensures condition == "" ==> expr == drugName
    ensures condition != "" ==> expr == drugName + " AND " + condition
  {
    var terms := [drugName] + (if condition != "" then [condition] else []);
    assert condition != "" ==> terms[1..] == [condition] && Join(terms[1..], " AND ") == condition;
    Join(terms, " AND ")
  }

  /** The study_fields call: the expression, the six fields, ranks one to five, a JSON reply. */
  function TrialsRequest(drugName: string, condition: string): (r: Request)
    ensures r.url == ClinicalTrialsBaseUrl + "/study_fields"
    ensures |r.params| == 5 && r.params[0] == ("expr", ClinicalTrialsExpr(drugName, condition))
    ensures r.params[1] == ("fields", TrialFields) && r.params[2] == ("min_rnk", "1") && r.params[3] == ("max_rnk", "5")
      && r.params[4] == ("fmt", "json")
  {
    Request(ClinicalTrialsBaseUrl + "/study_fields",
      [("expr", ClinicalTrialsExpr(drugName, condition)), ("fields", TrialFields),
       ("min_rnk", "1"), ("max_rnk", "5"), ("fmt", "json")])
  }

  /** One normalised trial: the first value of each requested field, and the registry page. */
  datatype Trial = Trial(nctId: Json, title: Json, status: Json, phase: Json, url: string)

  /** `study.get(key, [''])[0]`. */
  function FirstValue(study: Json, key: string): (r: Option<Json>)
    ensures !study.Obj? ==> r.None?
    ensures study.Obj? && key !in study.fields ==> r == Some(Str(""))
    ensures study.Obj? && key in study.fields ==> r == First(study.fields[key])
  {
    match Get(study, key, Arr([Str("")]))
    case Some(v) => First(v)
    case None => None
  }

  /** The record for one study; `None` where building the dict raises. */
  function TrialFor(study: Json): (r: Option<Trial>)
    ensures r.Some? <==>
      FirstValue(study, "NCTId").Some? && FirstValue(study, "BriefTitle").Some?
      && FirstValue(study, "OverallStatus").Some? && FirstValue(study, "Phase").Some?
      && Format(FirstValue(study, "NCTId").value).Some?
    ensures r.Some? ==>
      Some(r.value.nctId) == FirstValue(study, "NCTId") && Some(r.value.title) == FirstValue(study, "BriefTitle")
      && Some(r.value.status) == FirstValue(study, "OverallStatus") && Some(r.value.phase) == FirstValue(study, "Phase")
    ensures r.Some? ==> study.Obj? && Format(r.value.nctId).Some?
    ensures r.Some? ==> r.value.url == TrialPageUrl + Format(r.value.nctId).value
  {
    match (FirstValue(study, "NCTId"), FirstValue(study, "BriefTitle"),
           FirstValue(study, "OverallStatus"), FirstValue(study, "Phase"))
    case (Some(nct), Some(title), Some(status), Some(phase)) =>
      (match Format(nct)
       case Some(id) => Some(Trial(nct, title, status, phase, TrialPageUrl + id))
       case None => None)
    case _ => None
  }

  /** A study without any of the four fields gives empty strings and the bare registry URL. */
  lemma TrialDefaults(study: map<string, Json>)
    requires "NCTId" !in study && "BriefTitle" !in study && "OverallStatus" !in study && "Phase" !in study
    ensures TrialFor(Obj(study)) == Some(Trial(Str(""), Str(""), Str(""), Str(""), TrialPageUrl))
  {
    assert FirstValue(Obj(study), "NCTId") == Some(Str(""));
    assert TrialPageUrl + "" == TrialPageUrl;
  }

  /** The entries of `data.get('StudyFieldsResponse', {}).get('StudyFields', [])`. */
  function StudyEntries(body: Json): (r: Option<seq<Json>>)
    ensures !body.Obj? ==> r.None?
    ensures body.Obj? && "StudyFieldsResponse" !in body.fields ==> r == Some([])
    ensures body.Obj? && "StudyFieldsResponse" in body.fields ==>
      var response := body.fields["StudyFieldsResponse"];
      (!response.Obj? ==> r.None?)
      && (response.Obj? && "StudyFields" !in response.fields ==> r == Some([]))
      && (response.Obj? && "StudyFields" in response.fields ==> r == Elements(response.fields["StudyFields"]))
  {
    match Get(body, "StudyFieldsResponse", Obj(map[]))
    case None => None
    case Some(response) =>
      match Get(response, "StudyFields", Arr([]))
      case None => None
      case Some(fields) => Elements(fields)
  }

  /** What `search_clinical_trials` returns for the reply `fetch` gives to its request. */
  function TrialsLookup(drugName: string, condition: string, fetch: Request -> Reply): seq<Trial> {
    match fetch(TrialsRequest(drugName, condition))
    case Failed => []
    case Delivered(body) =>
      match StudyEntries(body)
      case None => []
      case Some(entries) => MapAll(entries, TrialFor).GetOr([])
  }

  /** `search_clinical_trials`: one GET, then a loop appending one record per study. */
  method SearchClinicalTrials(drugName: string, condition: string, fetch: Request -> Reply)
    returns (studies: seq<Trial>, calls: seq<Request>)
    ensures studies == TrialsLookup(drugName, condition, fetch)
    ensures calls == [TrialsRequest(drugName, condition)]
  {
    var request := TrialsRequest(drugName, condition);
    calls := [request];
    studies := [];
    var reply := fetch(request);
    if reply.Failed? {
      return;
    }
    var entries := StudyEntries(reply.body);
    if entries.None? {
      return;
    }
    var collected := CollectAll(entries.value, TrialFor);
    studies := collected.GetOr([]);
  }

  // ---------------------------------------------------------------------------
  // openFDA drugs@FDA
  // ---------------------------------------------------------------------------

  /** The openFDA request: the drug name against the active ingredients, at most three results. */
  function FdaRequest(drugName: string): (r: Request)
    ensures r.url == FdaBaseUrl + "/drug/drugsfda.json"
    ensures |r.params| == 2 && r.params[0].0 == "search" && r.params[1] == ("limit", "3")
    ensures r.params[0].1 == "products.active_ingredients.name:\"" + drugName + "\""
  {
    Request(FdaBaseUrl + "/drug/drugsfda.json",
      [("search", "products.active_ingredients.name:\"" + drugName + "\""), ("limit", "3")])
  }

  /**
   * The openFDA query asks for at most three applications and is determined by the drug name
   * alone: two drugs give the same request exactly when they are the same drug.
   */
  lemma FdaRequestNamesOnlyTheDrug(d1: string, d2: string)
    ensures ("limit", "3") in FdaRequest(d1).params
    ensures FdaRequest(d1) == FdaRequest(d2) <==> d1 == d2
  {
    assert FdaRequest(d1).params[1] == ("limit", "3");
    if FdaRequest(d1) == FdaRequest(d2) {
      var head := "products.active_ingredients.name:\"";
      assert FdaRequest(d1).params[0].1 == head + d1 + "\"";
      assert FdaRequest(d2).params[0].1 == head + d2 + "\"";
      MiddleDetermined(head, d1, d2, "\"");
    }
  }

  /** One normalised application: its number, its sponsor and its Drugs@FDA overview page. */
  datatype Approval = Approval(applicationNumber: Json, sponsorName: Json, url: string)

  /** The record for one application; `None` where building the dict raises. */
  function ApprovalFor(result: Json): (r: Option<Approval>)
    ensures r.Some? <==> result.Obj? && Format(Get(result, "application_number", Str("")).value).Some?
    ensures r.Some? ==>
      Get(result, "application_number", Str("")) == Some(r.value.applicationNumber)
      && Get(result, "sponsor_name", Str("")) == Some(r.value.sponsorName)
    ensures r.Some? ==> result.Obj? && Format(r.value.applicationNumber).Some?
    ensures r.Some? ==> r.value.url == FdaOverviewUrl + Format(r.value.applicationNumber).value
    ensures result.Obj? && "application_number" !in result.fields ==>
      r.Some? && r.value.applicationNumber == Str("") && r.value.url == FdaOverviewUrl
  {
    match (Get(result, "application_number", Str("")), Get(result, "sponsor_name", Str("")))
    case (Some(number), Some(sponsor)) =>
      (match Format(number)
       case Some(n) => Some(Approval(number, sponsor, FdaOverviewUrl + n))
       case None => None)
    case _ => None
  }

  /** What `search_fda` returns for the reply `fetch` gives to its request. */
  function FdaLookup(drugName: string, fetch: Request -> Reply): seq<Approval> {
    match fetch(FdaRequest(drugName))
    case Failed => []
    case Delivered(body) =>
      match Get(body, "results", Arr([]))
      case None => []
      case Some(results) =>
        match Elements(results)
        case None => []
        case Some(entries) => MapAll(entries, ApprovalFor).GetOr([])
  }

  /** `search_fda`: one GET, then a loop appending one record per application. */
  method SearchFda(drugName: string, fetch: Request -> Reply)
    returns (approvals: seq<Approval>, calls: seq<Request>)
    ensures approvals == FdaLookup(drugName, fetch)
    ensures calls == [FdaRequest(drugName)]
  {
    var request := FdaRequest(drugName);
    calls := [request];
    approvals := [];
    var reply := fetch(request);
    if reply.Failed? {
      return;
    }
    var results := Get(reply.body, "results", Arr([]));
    if results.None? {
      return;
    }
    var entries := Elements(results.value);
    if entries.None? {
      return;
    }
    var collected := CollectAll(entries.value, ApprovalFor);
    approvals := collected.GetOr([]);
  }

  /** A delivered list of applications gives one record per application, in order, or none at all. */
  lemma FdaRecordsFollowResults(drugName: string, fetch: Request -> Reply, entries: seq<Json>)
    requires fetch(FdaRequest(drugName)).Delivered? && fetch(FdaRequest(drugName)).body.Obj?
    requires "results" in fetch(FdaRequest(drugName)).body.fields
    requires fetch(FdaRequest(drugName)).body.fields["results"] == Arr(entries)
    ensures var approvals := FdaLookup(drugName, fetch);
      (approvals == [] && entries != [] <==> exists k :: 0 <= k < |entries| && ApprovalFor(entries[k]).None?)
      && (approvals != [] ==>
            |approvals| == |entries| && forall k :: 0 <= k < |entries| ==> ApprovalFor(entries[k]) == Some(approvals[k]))
  {
    MapAllFailsIffSomeEntryFails(entries, ApprovalFor);
    if MapAll(entries, ApprovalFor).Some? {
      MapAllKeepsOrder(entries, ApprovalFor);
    }
  }

  // ---------------------------------------------------------------------------
  // The records as the JSON dicts the service returns
  // ---------------------------------------------------------------------------

  /** The article dict: its seven keys, each carrying the matching field. */
  function ArticleJson(a: Article): (j: Json)
    ensures j.Obj? && j.fields.Keys == {"pmid", "title", "authors", "journal", "year", "type", "url"}
    ensures j.fields["pmid"] == Str(a.pmid) && j.fields["title"] == Str(a.title) && j.fields["authors"] == Str(a.authors)
      && j.fields["journal"] == a.journal && j.fields["year"] == Str(a.year) && j.fields["type"] == Str(a.studyType)
      && j.fields["url"] == Str(a.url)
  {
    Obj(map["pmid" := Str(a.pmid), "title" := Str(a.title), "authors" := Str(a.authors),
            "journal" := a.journal, "year" := Str(a.year), "type" := Str(a.studyType), "url" := Str(a.url)])
  }

  /** The trial dict: its five keys, each carrying the matching field. */
  function TrialJson(t: Trial): (j: Json)
    ensures j.Obj? && j.fields.Keys == {"nctId", "title", "status", "phase", "url"}
    ensures j.fields["nctId"] == t.nctId && j.fields["title"] == t.title && j.fields["status"] == t.status
      && j.fields["phase"] == t.phase && j.fields["url"] == Str(t.url)
  {
    Obj(map["nctId" := t.nctId, "title" := t.title, "status" := t.status, "phase" := t.phase, "url" := Str(t.url)])
  }

  /** The application dict: its three keys, each carrying the matching field. */
  function ApprovalJson(a: Approval): (j: Json)
    ensures j.Obj? && j.fields.Keys == {"applicationNumber", "sponsorName", "url"}
    ensures j.fields["applicationNumber"] == a.applicationNumber && j.fields["sponsorName"] == a.sponsorName
      && j.fields["url"] == Str(a.url)
  {
    Obj(map["applicationNumber" := a.applicationNumber, "sponsorName" := a.sponsorName, "url" := Str(a.url)])
  }
}
