/** Lookups over a constant list of articles: by slug, related articles,
    and the case-insensitive tag and keyword searches. Only the fields the
    lookups read are kept; bodies, images, sources and ages are not. */
module ArticleCatalog {
  import opened Js

  datatype Article = Article(slug: string, title: string, summary: string, tags: seq<string>, keywords: seq<string>)

  function SlugIs(slug: string): Article -> bool {
    (a: Article) => a.slug == slug
  }

  function SlugIsNot(slug: string): Article -> bool {
    (a: Article) => a.slug != slug
  }

  /** `articles.find(article => article.slug === slug)` */
  function BySlug(articles: seq<Article>, slug: string): Option<Article> {
    Find(articles, SlugIs(slug))
  }

  /** `articles.filter(article => article.slug !== currentSlug).slice(0, limit)` */
  function Related(articles: seq<Article>, currentSlug: string, limit: int): seq<Article> {
    Slice(Filter(articles, SlugIsNot(currentSlug)), 0, limit)
  }

  /** `t.toLowerCase() === tag.toLowerCase()` */
  function TagMatches(tag: string): string -> bool {
    (t: string) => Lower(t) == Lower(tag)
  }

  function HasTag(tag: string): Article -> bool {
    (a: Article) => Some_(a.tags, TagMatches(tag))
  }

  /** `articles.filter(article => article.tags.some(...))` */
  function ByTag(articles: seq<Article>, tag: string): seq<Article> {
    Filter(articles, HasTag(tag))
  }

  /** `s.toLowerCase().includes(lowerKeyword)` */
  function Mentions(lowerKeyword: string): string -> bool {
    (s: string) => Includes(Lower(s), lowerKeyword)
  }

  /** Keywords, then tags, then title, then summary. */
  function MatchesKeyword(lowerKeyword: string): Article -> bool {
    (a: Article) =>
      || Some_(a.keywords, Mentions(lowerKeyword))
      || Some_(a.tags, Mentions(lowerKeyword))
      || Mentions(lowerKeyword)(a.title)
      || Mentions(lowerKeyword)(a.summary)
  }

  function ByKeyword(articles: seq<Article>, keyword: string): seq<Article> {
    Filter(articles, MatchesKeyword(Lower(keyword)))
  }

  predicate DistinctSlugs(articles: seq<Article>) {
    forall i, j :: 0 <= i < j < |articles| ==> articles[i].slug != articles[j].slug
  }

  /** A lookup finds nothing exactly when no article has the slug, and
      otherwise the first article that has it. */
  lemma BySlugFindsFirst(articles: seq<Article>, slug: string)
    ensures BySlug(articles, slug).None? <==> forall a :: a in articles ==> a.slug != slug
    ensures BySlug(articles, slug).Some? ==>
      exists i :: 0 <= i < |articles| && articles[i] == BySlug(articles, slug).value && articles[i].slug == slug
        && forall j :: 0 <= j < i ==> articles[j].slug != slug
  {
    FindFirst(articles, SlugIs(slug));
  }

  /** With distinct slugs, every article is found by its own slug. */
  lemma BySlugFindsOwnArticle(articles: seq<Article>, a: Article)
    requires DistinctSlugs(articles) && a in articles
    ensures BySlug(articles, a.slug) == Some(a)
  {
    BySlugFindsFirst(articles, a.slug);
    var i :| 0 <= i < |articles| && articles[i] == BySlug(articles, a.slug).value && articles[i].slug == a.slug
      && forall j :: 0 <= j < i ==> articles[j].slug != a.slug;
    var k :| 0 <= k < |articles| && articles[k] == a;
    assert i == k;
  }

  /** Related articles never include the current one, come in catalogue
      order as a prefix of the others, and number `limit` when that many
      exist. */
  lemma RelatedContract(articles: seq<Article>, currentSlug: string, limit: int)
    ensures var r := Related(articles, currentSlug, limit);
      && (forall a :: a in r ==> a in articles && a.slug != currentSlug)
      && r <= Filter(articles, SlugIsNot(currentSlug))
      && (limit >= 0 ==> |r| == if limit < |Filter(articles, SlugIsNot(currentSlug))| then limit
                                else |Filter(articles, SlugIsNot(currentSlug))|)
  {
    FilterMembers(articles, SlugIsNot(currentSlug));
  }

  /** For a slug no article has, the related articles are simply the first
      `limit` of the catalogue. */
  lemma RelatedForUnknownSlug(articles: seq<Article>, currentSlug: string, limit: nat)
    requires forall a :: a in articles ==> a.slug != currentSlug
    ensures Related(articles, currentSlug, limit) == articles[..if limit < |articles| then limit else |articles|]
  {
    FilterAll(articles, SlugIsNot(currentSlug));
  }

  /** The tag search returns exactly the articles carrying the tag up to
      letter case. */
  lemma ByTagExactly(articles: seq<Article>, tag: string)
    ensures forall a :: a in ByTag(articles, tag) <==>
      a in articles && exists t :: t in a.tags && Lower(t) == Lower(tag)
  {
    FilterMembers(articles, HasTag(tag));
    forall a: Article ensures HasTag(tag)(a) <==> exists t :: t in a.tags && Lower(t) == Lower(tag) {
      if exists t :: t in a.tags && Lower(t) == Lower(tag) {
        var t :| t in a.tags && Lower(t) == Lower(tag);
        var i :| 0 <= i < |a.tags| && a.tags[i] == t;
        assert TagMatches(tag)(a.tags[i]);
      }
    }
  }

  /** An empty keyword matches every article. */
  lemma EmptyKeywordMatchesAll(articles: seq<Article>)
    ensures ByKeyword(articles, "") == articles
  {
    forall a | a in articles ensures MatchesKeyword(Lower(""))(a) {
      assert Lower("") == [];
      assert StartsWith(Lower(a.title), []);
      assert Mentions(Lower(""))(a.title);
    }
    FilterAll(articles, MatchesKeyword(Lower("")));
  }

  /** A text mentions a lower-cased keyword exactly when the keyword
      occurs at some position of the lower-cased text. */
  lemma MentionsIffOccurs(lowerKeyword: string, s: string)
    ensures Mentions(lowerKeyword)(s) <==> exists i :: OccursAt(Lower(s), lowerKeyword, i)
  {
    IncludesIffOccurs(Lower(s), lowerKeyword);
  }

  /** A mentioning element gives an element in which the keyword occurs. */
  lemma OccursOfMention(lowerKeyword: string, xs: seq<string>)
    requires Some_(xs, Mentions(lowerKeyword))
    ensures exists x :: x in xs && exists i :: OccursAt(Lower(x), lowerKeyword, i)
  {
    var j :| 0 <= j < |xs| && Mentions(lowerKeyword)(xs[j]);
    MentionsIffOccurs(lowerKeyword, xs[j]);
    assert xs[j] in xs;
  }

  /** An element in which the keyword occurs is a mentioning element. */
  lemma MentionOfOccurs(lowerKeyword: string, xs: seq<string>)
    requires exists x :: x in xs && exists i :: OccursAt(Lower(x), lowerKeyword, i)
    ensures Some_(xs, Mentions(lowerKeyword))
  {
    var x :| x in xs && exists i :: OccursAt(Lower(x), lowerKeyword, i);
    MentionsIffOccurs(lowerKeyword, x);
    var j :| 0 <= j < |xs| && xs[j] == x;
  }

  /** Some text of a list mentions the keyword exactly when the keyword
      occurs in one of them, lower-cased. */
  lemma SomeMentionsIffOccurs(lowerKeyword: string, xs: seq<string>)
    ensures Some_(xs, Mentions(lowerKeyword)) <==>
      exists x :: x in xs && exists i :: OccursAt(Lower(x), lowerKeyword, i)
  {
    if Some_(xs, Mentions(lowerKeyword)) {
      OccursOfMention(lowerKeyword, xs);
    }
    if exists x :: x in xs && exists i :: OccursAt(Lower(x), lowerKeyword, i) {
      MentionOfOccurs(lowerKeyword, xs);
    }
  }

  /** The keyword search returns exactly the articles in which the
      lower-cased keyword occurs in a lower-cased keyword, tag, title or
      summary. */
  lemma ByKeywordExactly(articles: seq<Article>, keyword: string)
    ensures forall a :: a in ByKeyword(articles, keyword) <==>
      a in articles &&
        ( (exists k :: k in a.keywords && exists i :: OccursAt(Lower(k), Lower(keyword), i))
        || (exists t :: t in a.tags && exists i :: OccursAt(Lower(t), Lower(keyword), i))
        || (exists i :: OccursAt(Lower(a.title), Lower(keyword), i))
        || (exists i :: OccursAt(Lower(a.summary), Lower(keyword), i)))
  {
    var lk := Lower(keyword);
    FilterMembers(articles, MatchesKeyword(lk));
    forall a: Article
      ensures MatchesKeyword(lk)(a) <==>
        ( (exists k :: k in a.keywords && exists i :: OccursAt(Lower(k), lk, i))
        || (exists t :: t in a.tags && exists i :: OccursAt(Lower(t), lk, i))
        || (exists i :: OccursAt(Lower(a.title), lk, i))
        || (exists i :: OccursAt(Lower(a.summary), lk, i)))
    {
      SomeMentionsIffOccurs(lk, a.keywords);
      SomeMentionsIffOccurs(lk, a.tags);
      MentionsIffOccurs(lk, a.title);
      MentionsIffOccurs(lk, a.summary);
    }
  }

  /** Every article the tag search finds, the keyword search finds too. */
  lemma TagResultsAreKeywordResults(articles: seq<Article>, tag: string)
    ensures forall a :: a in ByTag(articles, tag) ==> a in ByKeyword(articles, tag)
  {
    FilterMembers(articles, HasTag(tag));
    FilterMembers(articles, MatchesKeyword(Lower(tag)));
    forall a | a in ByTag(articles, tag) ensures MatchesKeyword(Lower(tag))(a) {
      var i :| 0 <= i < |a.tags| && TagMatches(tag)(a.tags[i]);
      IncludesSelf(Lower(tag));
      assert Mentions(Lower(tag))(a.tags[i]);
      assert Some_(a.tags, Mentions(Lower(tag)));
    }
  }
}

/** The CargoBloom articles. */
module BloomArticles {
  import opened Js
  import opened ArticleCatalog

  const Articles: seq<Article> := [
      Article(
        "global-shipping-rates-forecast-2025",
        "Global Shipping Rates Forecast 2025: A Comprehensive Outlook",
        "As the maritime industry navigates through geopolitical tensions, environmental regulations, and economic shifts, experts predict a volatile yet transformative year for global shipping rates. We analyze the key drivers impacting container costs and what shippers can expect in 2025.",
        ["Shipping", "Rates", "Forecast", "Geopolitics", "Sustainability"],
        ["shipping rates 2025", "logistics forecast", "container shipping trends", "supply chain resilience", "Red Sea crisis shipping", "EU ETS shipping"]),
      Article(
        "port-of-los-angeles-record-volume",
        "Port of Los Angeles Shatters Records: Analyzing the Q3 Container Volume Surge",
        "The Port of Los Angeles has reported unprecedented container volumes in the third quarter, driven by early holiday imports and a resilient US economy. We delve into the statistics, operational strategies, and implications for the national supply chain.",
        ["Ports", "Los Angeles", "Logistics", "Supply Chain", "Economy"],
        ["Port of Los Angeles", "container volume record", "logistics news", "supply chain management", "Gene Seroka", "holiday shipping season"]),
      Article(
        "imo-sustainability-regulations",
        "Navigating the Green Wave: How New IMO Regulations Will Reshape Shipping Costs",
        "The International Maritime Organization (IMO) is implementing stricter sustainability regulations that are set to revolutionize the industry. From the Carbon Intensity Indicator (CII) to new fuel mandates, we explore the financial and operational impacts on shipping lines and cargo owners.",
        ["Sustainability", "IMO", "Fuel", "Green Logistics", "Regulations"],
        ["IMO regulations", "shipping fuel costs", "Carbon Intensity Indicator", "EEXI", "green shipping", "sustainable logistics"]),
      Article(
        "air-freight-demand-surges",
        "Air Freight Demand Soars: The Holiday Rush and the E-commerce Boom",
        "Global air freight demand is experiencing a sharp increase as shippers rush to move high-value goods ahead of the peak holiday shopping season. We examine the driving forces, including the 'Red Sea Effect' and the relentless growth of cross-border e-commerce.",
        ["Air Freight", "Logistics", "Holidays", "E-commerce", "Supply Chain"],
        ["air freight demand", "air cargo rates", "holiday shipping", "Shein Temu logistics", "Red Sea crisis impact"]),
      Article(
        "ai-supply-chain-management",
        "The AI Revolution: 5 Ways Artificial Intelligence is Transforming Supply Chains",
        "Artificial Intelligence is no longer just a buzzword; it's a critical tool for modern logistics. From predictive analytics to autonomous warehousing, discover the top 5 AI trends that are redefining efficiency and visibility in supply chain management.",
        ["AI", "Tech", "Supply Chain", "Innovation", "Automation"],
        ["AI in supply chain", "logistics technology", "predictive analytics", "route optimization", "warehouse automation", "artificial intelligence logistics"]),
      Article(
        "trucking-driver-shortage",
        "The Trucking Talent Gap: Crisis, Causes, and Future Solutions",
        "The trucking industry is facing a severe and deepening shortage of qualified drivers. We analyze the demographic shifts, lifestyle challenges, and innovative solutions—from increased pay to autonomous technology—that companies are employing to bridge the gap.",
        ["Trucking", "Labor", "Industry", "Workforce", "Logistics"],
        ["truck driver shortage", "trucking industry crisis", "logistics labor market", "autonomous trucking", "women in trucking"]),
      Article(
        "digital-freight-forwarding",
        "Digital Freight Forwarding: The Future of Global Logistics",
        "Traditional freight forwarding is being disrupted by agile, digital-first platforms. We explore how digitization is enhancing transparency, streamlining documentation, and elevating the customer experience in a sector ripe for innovation.",
        ["Digital", "Freight Forwarding", "Innovation", "Tech", "Logistics"],
        ["digital freight forwarding", "logistics technology", "supply chain digitization", "Flexport", "real-time tracking"])
    ]

  function GetArticleBySlug(slug: string): Option<Article> {
    BySlug(Articles, slug)
  }

  function GetRelatedArticles(currentSlug: string, limit: int := 3): seq<Article> {
    Related(Articles, currentSlug, limit)
  }

  function GetArticlesByTag(tag: string): seq<Article> {
    ByTag(Articles, tag)
  }

  function GetArticlesByKeyword(keyword: string): seq<Article> {
    ByKeyword(Articles, keyword)
  }

  /** No two articles share a slug, so each is reached by its own. */
  lemma EveryArticleHasItsOwnSlug()
    ensures DistinctSlugs(Articles)
    ensures forall a :: a in Articles ==> GetArticleBySlug(a.slug) == Some(a)
  {
    SlugsAreDistinct();
    forall a | a in Articles ensures GetArticleBySlug(a.slug) == Some(a) {
      BySlugFindsOwnArticle(Articles, a);
    }
  }

  lemma SlugsAreDistinct()
    ensures DistinctSlugs(Articles)
  {
    forall i, j | 0 <= i < j < |Articles| ensures Articles[i].slug != Articles[j].slug {
      assert |Articles[i].slug| != |Articles[j].slug| || Articles[i].slug[0] != Articles[j].slug[0];
    }
  }
}

/** The CargoMind articles. */
module MindArticles {
  import opened Js
  import opened ArticleCatalog

  const Articles: seq<Article> := [
      Article(
        "global-shipping-rates-forecast-2025",
        "Global Shipping Rates Forecast 2025: What to Expect",
        "As the maritime industry navigates through geopolitical tensions and environmental regulations, experts predict a volatile yet transformative year for global shipping rates. We analyze the key drivers impacting container costs.",
        ["Shipping", "Rates", "Forecast"],
        ["shipping rates", "logistics forecast", "container shipping", "supply chain 2025"]),
      Article(
        "port-of-los-angeles-record-volume",
        "Port of Los Angeles Sees Record Container Volume in Q3",
        "The Port of Los Angeles has reported unprecedented container volumes in the third quarter, driven by early holiday imports and a resilient US economy.",
        ["Ports", "Los Angeles", "Logistics"],
        ["Port of Los Angeles", "container volume", "logistics news", "supply chain"]),
      Article(
        "imo-sustainability-regulations",
        "New IMO Sustainability Regulations to Impact Fuel Costs",
        "The International Maritime Organization (IMO) is set to implement stricter sustainability regulations, which are expected to significantly impact fuel costs for shipping lines.",
        ["Sustainability", "IMO", "Fuel"],
        ["IMO regulations", "shipping fuel", "sustainability", "maritime industry"]),
      Article(
        "air-freight-demand-surges",
        "Air Freight Demand Surges Ahead of Holiday Season",
        "Global air freight demand is seeing a sharp increase as shippers rush to move high-value goods ahead of the peak holiday shopping season.",
        ["Air Freight", "Logistics", "Holidays"],
        ["air freight", "air cargo", "holiday shipping", "logistics"]),
      Article(
        "ai-supply-chain-management",
        "The Rise of AI in Supply Chain Management",
        "Artificial Intelligence is revolutionizing how logistics companies predict demand, optimize routes, and manage inventory. Discover the top 5 AI trends shaping the future of supply chain.",
        ["AI", "Tech", "Supply Chain"],
        ["AI in supply chain", "logistics technology", "predictive analytics", "route optimization"]),
      Article(
        "trucking-driver-shortage",
        "Trucking Industry Faces Driver Shortage Crisis",
        "With an aging workforce and increasing demand, the trucking industry is facing a severe shortage of qualified drivers. What solutions are companies implementing to attract new talent?",
        ["Trucking", "Labor", "Industry"],
        ["truck driver shortage", "trucking industry", "logistics labor", "transportation"]),
      Article(
        "digital-freight-forwarding",
        "Digital Transformation in Freight Forwarding",
        "Traditional freight forwarding is being disrupted by digital-first platforms. We explore how digitization is improving transparency, efficiency, and customer experience in the sector.",
        ["Digital", "Freight Forwarding", "Innovation"],
        ["digital freight forwarding", "logistics technology", "supply chain digitization"])
    ]

  function GetArticleBySlug(slug: string): Option<Article> {
    BySlug(Articles, slug)
  }

  function GetRelatedArticles(currentSlug: string, limit: int := 3): seq<Article> {
    Related(Articles, currentSlug, limit)
  }

  lemma EveryArticleHasItsOwnSlug()
    ensures DistinctSlugs(Articles)
    ensures forall a :: a in Articles ==> GetArticleBySlug(a.slug) == Some(a)
  {
    SlugsAreDistinct();
    forall a | a in Articles ensures GetArticleBySlug(a.slug) == Some(a) {
      BySlugFindsOwnArticle(Articles, a);
    }
  }

  lemma SlugsAreDistinct()
    ensures DistinctSlugs(Articles)
  {
    forall i, j | 0 <= i < j < |Articles| ensures Articles[i].slug != Articles[j].slug {
      assert |Articles[i].slug| != |Articles[j].slug| || Articles[i].slug[0] != Articles[j].slug[0];
    }
  }

  /** Outside any article page, the related list is the first three
      articles of the catalogue. */
  lemma RelatedForUnknownSlugIsFirstThree(currentSlug: string)
    requires forall a :: a in Articles ==> a.slug != currentSlug
    ensures GetRelatedArticles(currentSlug) == Articles[..3]
  {
    RelatedForUnknownSlug(Articles, currentSlug, 3);
  }
}
