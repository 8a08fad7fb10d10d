/**
 * HtmlDocumentImpl: a node list with document accessors. The META list,
 * the robots/keywords/description METAs, the two icon LINKs, the TITLE
 * and the BODY are chosen as first matches over the pre-order walk and
 * cached in fields the first time they are asked for.
 */
module HtmlDocuments {
  import opened Wrappers
  import opened JavaStrings
  import opened Attributes
  import opened Nodes
  import opened NodeLists

  /** getAttributeValue on a node the filters selected (only tags carry attributes). */
  function NodeAttribute(n: Node, key: string): Option<string>
  {
    if n.Tag? then ValueOf(n.attributes, key) else None
  }

  /** A META whose name attribute is exactly `value` (case-sensitive equals). */
  function NamedMeta(value: string): Node -> bool
  {
    n => NodeAttribute(n, "name") == Some(value)
  }

  /** A LINK whose rel, lower-cased and trimmed, is exactly `value`. */
  function RelIs(value: string): Node -> bool
  {
    n => NodeAttribute(n, "rel").Some? && Trim(Lower(NodeAttribute(n, "rel").value)) == value
  }

  /** Adding one element to the scanned prefix: the first match stays, or the new element becomes it. */
  lemma FirstStep(ns: seq<Node>, i: nat, p: Node -> bool)
    requires i < |ns|
    ensures FirstOrBlank(Filter(ns[..i + 1], p)) ==
      if FirstOrBlank(Filter(ns[..i], p)).None? && p(ns[i]) then Some(ns[i]) else FirstOrBlank(Filter(ns[..i], p))
  {
    assert ns[..i + 1][..i] == ns[..i];
  }

  /** Once a prefix has a match, the rest of the list cannot change the first one. */
  lemma FirstOfPrefix(ns: seq<Node>, i: nat, p: Node -> bool)
    requires i <= |ns| && FirstOrBlank(Filter(ns[..i], p)).Some?
    ensures FirstOrBlank(Filter(ns, p)) == FirstOrBlank(Filter(ns[..i], p))
  {
    SplitAt(ns, i);
    FirstOfSplit(ns[..i], ns[i..], p);
  }

  lemma FirstOfSplit(head: seq<Node>, tail: seq<Node>, p: Node -> bool)
    requires FirstOrBlank(Filter(head, p)).Some?
    ensures FirstOrBlank(Filter(head + tail, p)) == FirstOrBlank(Filter(head, p))
  {
    FilterAppend(head, tail, p);
  }

  /**
   * getMetaTagContent, and the evidently intended getTitleText: the text
   * when there is one and it is non-empty, else outputIfNone.
   */
  function TextOr(output: Option<string>, outputIfNone: Option<string>): (r: Option<string>)
    ensures output.Some? && |output.value| > 0 ==> r == output
    ensures output.None? || |output.value| == 0 ==> r == outputIfNone
  {
    if output.None? || |output.value| == 0 then outputIfNone else output
  }

  /** getTitleText as written: null whenever there is a non-empty title. */
  function TitleTextAsWritten(output: Option<string>, outputIfNone: Option<string>): Option<string>
  {
    if output.None? || |output.value| == 0 then outputIfNone else None
  }

  /** The two agree exactly when the title is absent or empty; a non-empty title is lost as written. */
  lemma TitleTextAsWrittenLosesTitle(output: Option<string>, outputIfNone: Option<string>)
    ensures output.Some? && |output.value| > 0 ==>
      TitleTextAsWritten(output, outputIfNone) == None && TextOr(output, outputIfNone) == output
    ensures output.None? || |output.value| == 0 ==>
      TitleTextAsWritten(output, outputIfNone) == TextOr(output, outputIfNone)
  {
  }

  /** The concrete input: a document titled "Home" gets null from getTitleText("Untitled"). */
  lemma TitleTextAsWrittenExample()
    ensures TitleTextAsWritten(Some("Home"), Some("Untitled")) == None
    ensures TextOr(Some("Home"), Some("Untitled")) == Some("Home")
  {
  }

  /** getMetaTagContent: the content attribute of the tag, when present and non-empty, else outputIfNone. */
  function MetaTagContent(tag: Option<Node>, outputIfNone: Option<string>): (r: Option<string>)
    ensures tag.None? ==> r == outputIfNone
    ensures r != outputIfNone ==> tag.Some? && r == NodeAttribute(tag.value, "content") && r.Some? && |r.value| > 0
  {
    TextOr(if tag.Some? then NodeAttribute(tag.value, "content") else None, outputIfNone)
  }

  /**
   * isRobotsMetaTagContentContaining: the robots META has a content
   * attribute and its lower-cased text contains `target`.
   */
  predicate RobotsContentContains(robots: Option<Node>, target: string)
    ensures RobotsContentContains(robots, target) ==>
      robots.Some? && NodeAttribute(robots.value, "content").Some? &&
      |target| <= |NodeAttribute(robots.value, "content").value|
  {
    var content := if robots.Some? then NodeAttribute(robots.value, "content") else None;
    content.Some? && Contains(Lower(content.value), target)
  }

  /** A target holding an upper-case letter never matches: only the content is lower-cased. */
  lemma UpperCaseTargetNeverMatches(robots: Option<Node>, target: string, k: nat)
    requires k < |target| && 'A' <= target[k] <= 'Z'
    ensures !RobotsContentContains(robots, target)
  {
  }

  /** An empty target matches exactly when the robots META has a content attribute. */
  lemma EmptyTargetMatchesAnyContent(robots: Option<Node>)
    ensures RobotsContentContains(robots, "") <==>
      robots.Some? && NodeAttribute(robots.value, "content").Some?
  {
    if robots.Some? && NodeAttribute(robots.value, "content").Some? {
      ContainsAt(Lower(NodeAttribute(robots.value, "content").value), "", 0);
    }
  }

  /**
   * initMetaTags' loop: one pass over the METAs keeping the first named
   * robots, keywords and description.
   */
  method SelectNamedMetas(metas: seq<Node>) returns (mrobots: Option<Node>, mkeywords: Option<Node>, mdescription: Option<Node>)
    ensures mrobots == FirstOrBlank(Filter(metas, NamedMeta("robots")))
    ensures mkeywords == FirstOrBlank(Filter(metas, NamedMeta("keywords")))
    ensures mdescription == FirstOrBlank(Filter(metas, NamedMeta("description")))
  {
    mrobots, mkeywords, mdescription := None, None, None;
    var i := 0;
    while i < |metas|
      invariant 0 <= i <= |metas|
      invariant mrobots == FirstOrBlank(Filter(metas[..i], NamedMeta("robots")))
      invariant mkeywords == FirstOrBlank(Filter(metas[..i], NamedMeta("keywords")))
      invariant mdescription == FirstOrBlank(Filter(metas[..i], NamedMeta("description")))
    {
      FirstStep(metas, i, NamedMeta("robots"));
      FirstStep(metas, i, NamedMeta("keywords"));
      FirstStep(metas, i, NamedMeta("description"));
      var name := NodeAttribute(metas[i], "name");
      if mrobots.None? && name == Some("robots") {
        mrobots := Some(metas[i]);
      } else if mkeywords.None? && name == Some("keywords") {
        mkeywords := Some(metas[i]);
      } else if mdescription.None? && name == Some("description") {
        mdescription := Some(metas[i]);
      }
      i := i + 1;
    }
    assert metas[..i] == metas;
  }

  /**
   * initIcons' loop: the first LINK with rel "shortcut icon" and the first
   * with rel "icon", stopping as soon as both are known.
   */
  method SelectIcons(links: seq<Node>) returns (mico: Option<Node>, micon: Option<Node>)
    ensures mico == FirstOrBlank(Filter(links, RelIs("shortcut icon")))
    ensures micon == FirstOrBlank(Filter(links, RelIs("icon")))
  {
    mico, micon := None, None;
    var i := 0;
    while i < |links|
      invariant 0 <= i <= |links|
      invariant mico == FirstOrBlank(Filter(links[..i], RelIs("shortcut icon")))
      invariant micon == FirstOrBlank(Filter(links[..i], RelIs("icon")))
    {
      FirstStep(links, i, RelIs("shortcut icon"));
      FirstStep(links, i, RelIs("icon"));
      var rel := NodeAttribute(links[i], "rel");
      if rel.Some? {
        var lower := Trim(Lower(rel.value));
        if mico.None? && lower == "shortcut icon" {
          mico := Some(links[i]);
        } else if micon.None? && lower == "icon" {
          micon := Some(links[i]);
        }
        if mico.Some? && micon.Some? {
          i := i + 1;
          break;
        }
      }
      i := i + 1;
    }
    if i < |links| {
      FirstOfPrefix(links, i, RelIs("shortcut icon"));
      FirstOfPrefix(links, i, RelIs("icon"));
    } else {
      TakeAll(links);
    }
  }

  /** getMetaTags(filter)'s loop: the METAs the filter accepts, in list order. */
  method SelectMatching(metas: seq<Node>, accept: Node -> bool) returns (r: seq<Node>)
    ensures r == Filter(metas, accept)
  {
    r := [];
    var i := 0;
    while i < |metas|
      invariant 0 <= i <= |metas|
      invariant r == Filter(metas[..i], accept)
    {
      assert metas[..i + 1][..i] == metas[..i];
      if accept(metas[i]) {
        r := r + [metas[i]];
      }
      i := i + 1;
    }
    assert metas[..i] == metas;
  }

  /** The cached robots, keywords and description METAs are the first of the list with each name. */
  ghost predicate NamedMetasAgree(metas: seq<Node>, robots: Option<Option<Node>>, keywords: Option<Option<Node>>,
                                  description: Option<Option<Node>>)
  {
    && robots == Some(FirstOrBlank(Filter(metas, NamedMeta("robots"))))
    && keywords == Some(FirstOrBlank(Filter(metas, NamedMeta("keywords"))))
    && description == Some(FirstOrBlank(Filter(metas, NamedMeta("description"))))
  }

  class HtmlDocumentImpl {
    /** The document's own node list (HtmlDocumentImpl extends NodeListImpl). */
    const list: NodeListImpl
    /** TagNameFilter("META"), TagNameFilter("LINK"), NodeClassFilter(TitleTag), NodeClassFilter(BodyTag). */
    const isMeta: Node -> bool
    const isLink: Node -> bool
    const isTitle: Node -> bool
    const isBody: Node -> bool
    /** TitleTag.getTitle. */
    const titleOf: Node -> Option<string>
    /** getPage().getUrl() of a node. */
    const urlOf: Node -> Option<string>

    /** The cached fields; None stands for a field still null. */
    var metaTags: Option<seq<Node>>
    var robots: Option<Option<Node>>
    var keywords: Option<Option<Node>>
    var description: Option<Option<Node>>
    var ico: Option<Option<Node>>
    var icon: Option<Option<Node>>
    var title: Option<Node>
    var body: Option<Node>

    /** HtmlDocumentImpl(): an empty list with nothing cached. */
    constructor (isMeta: Node -> bool, isLink: Node -> bool, isTitle: Node -> bool, isBody: Node -> bool,
                 titleOf: Node -> Option<string>, urlOf: Node -> Option<string>)
      ensures fresh(list) && list.nodes == []
      ensures this.isMeta == isMeta && this.isLink == isLink && this.isTitle == isTitle && this.isBody == isBody
      ensures this.titleOf == titleOf && this.urlOf == urlOf
      ensures metaTags.None? && robots.None? && keywords.None? && description.None?
      ensures ico.None? && icon.None? && title.None? && body.None?
      ensures Valid()
    {
      list := new NodeListImpl();
      this.isMeta := isMeta;
      this.isLink := isLink;
      this.isTitle := isTitle;
      this.isBody := isBody;
      this.titleOf := titleOf;
      this.urlOf := urlOf;
      metaTags, robots, keywords, description := None, None, None, None;
      ico, icon, title, body := None, None, None, None;
    }

    /** The META list and its three named entries agree, as initMetaTags leaves them. */
    ghost predicate MetaCacheFilled()
      reads this
    {
      metaTags.Some? && NamedMetasAgree(metaTags.value, robots, keywords, description)
    }

    /** The class invariant: a cached META list always comes with its three named entries. */
    ghost predicate Valid()
      reads this
    {
      metaTags.Some? ==> MetaCacheFilled()
    }

    /**
     * initMetaTags: unless already done, cache the pre-order METAs and the
     * first of them named robots, keywords and description.
     */
    method InitMetaTags()
      requires Valid()
      modifies this
      ensures Valid()
      ensures old(metaTags).Some? ==>
        metaTags == old(metaTags) && robots == old(robots) && keywords == old(keywords) && description == old(description)
      ensures old(metaTags).None? ==> metaTags == Some(Filter(PreOrder(list.nodes), isMeta)) && MetaCacheFilled()
      ensures ico == old(ico) && icon == old(icon) && title == old(title) && body == old(body)
    {
      if metaTags.None? {
        var metas := CollectMetas();
        var mrobots, mkeywords, mdescription := SelectNamedMetas(metas);
        StoreMetaCache(metas, mrobots, mkeywords, mdescription);
      }
    }

    /** The pre-order METAs, as extractAllNodesThatMatch(META filter, true) lists them. */
    method CollectMetas() returns (metas: seq<Node>)
      ensures metas == Filter(PreOrder(list.nodes), isMeta)
    {
      var metaNodes := list.ExtractAllNodesThatMatch(isMeta, true);
      ExtractDeep(list.nodes, isMeta);
      metas := metaNodes.nodes;
    }

    /** initMetaTags' stores: the META list and the first of its entries with each name. */
    method StoreMetaCache(metas: seq<Node>, mrobots: Option<Node>, mkeywords: Option<Node>, mdescription: Option<Node>)
      requires NamedMetasAgree(metas, Some(mrobots), Some(mkeywords), Some(mdescription))
      modifies this`metaTags, this`robots, this`keywords, this`description
      ensures metaTags == Some(metas) && MetaCacheFilled()
    {
      metaTags, robots, keywords, description := Some(metas), Some(mrobots), Some(mkeywords), Some(mdescription);
    }

    /**
     * initIcons: unless both are cached, the first LINK whose rel is
     * "shortcut icon" and the first whose rel is "icon"; the scan stops once
     * both are found.
     */
    method InitIcons()
      requires Valid()
      modifies this
      ensures Valid()
      ensures old(ico).Some? && old(icon).Some? ==> ico == old(ico) && icon == old(icon)
      ensures !(old(ico).Some? && old(icon).Some?) ==>
        && ico == Some(FirstOrBlank(Filter(Filter(PreOrder(list.nodes), isLink), RelIs("shortcut icon"))))
        && icon == Some(FirstOrBlank(Filter(Filter(PreOrder(list.nodes), isLink), RelIs("icon"))))
      ensures metaTags == old(metaTags) && robots == old(robots) && keywords == old(keywords)
      ensures description == old(description) && title == old(title) && body == old(body)
    {
      if ico.Some? && icon.Some? {
        return;
      }
      var linkNodes := list.ExtractAllNodesThatMatch(isLink, true);
      ExtractDeep(list.nodes, isLink);
      var links := linkNodes.nodes;
      assert links == Filter(PreOrder(list.nodes), isLink);
      var mico, micon := SelectIcons(links);
      ico, icon := Some(mico), Some(micon);
    }

    /** getMetaTags(filter): the cached METAs the filter accepts, in order. */
    method GetMetaTagsMatching(accept: Node -> bool) returns (r: seq<Node>)
      requires Valid()
      modifies this
      ensures Valid()
      ensures old(metaTags).None? ==> r == Filter(Filter(PreOrder(list.nodes), isMeta), accept)
      ensures old(metaTags).Some? ==> r == Filter(old(metaTags).value, accept)
      ensures old(metaTags).Some? ==>
        metaTags == old(metaTags) && robots == old(robots) && keywords == old(keywords) && description == old(description)
      ensures old(metaTags).None? ==> metaTags == Some(Filter(PreOrder(list.nodes), isMeta))
      ensures ico == old(ico) && icon == old(icon) && title == old(title) && body == old(body)
    {
      InitMetaTags();
      r := SelectMatching(metaTags.value, accept);
    }

    /** getMetaTags(): the cached META list. */
    method GetMetaTags() returns (r: seq<Node>)
      requires Valid()
      modifies this
      ensures Valid()
      ensures old(metaTags).None? ==> r == Filter(PreOrder(list.nodes), isMeta)
      ensures old(metaTags).Some? ==> r == old(metaTags).value
      ensures metaTags == Some(r)
      ensures old(metaTags).Some? ==>
        metaTags == old(metaTags) && robots == old(robots) && keywords == old(keywords) && description == old(description)
      ensures old(metaTags).None? ==> metaTags == Some(Filter(PreOrder(list.nodes), isMeta))
      ensures ico == old(ico) && icon == old(icon) && title == old(title) && body == old(body)
    {
      InitMetaTags();
      r := metaTags.value;
    }

    /** getRobots: the first META named robots, from the cache. */
    method GetRobots() returns (r: Option<Node>)
      requires Valid()
      modifies this
      ensures Valid()
      ensures old(metaTags).Some? ==> r == FirstOrBlank(Filter(old(metaTags).value, NamedMeta("robots")))
      ensures old(metaTags).None? ==> r == FirstOrBlank(Filter(Filter(PreOrder(list.nodes), isMeta), NamedMeta("robots")))
      ensures robots == Some(r)
      ensures old(metaTags).Some? ==>
        metaTags == old(metaTags) && robots == old(robots) && keywords == old(keywords) && description == old(description)
      ensures old(metaTags).None? ==> metaTags == Some(Filter(PreOrder(list.nodes), isMeta))
      ensures ico == old(ico) && icon == old(icon) && title == old(title) && body == old(body)
    {
      InitMetaTags();
      r := robots.value;
    }

    /** getKeywords: the first META named keywords, from the cache. */
    method GetKeywords() returns (r: Option<Node>)
      requires Valid()
      modifies this
      ensures Valid()
      ensures old(metaTags).Some? ==> r == FirstOrBlank(Filter(old(metaTags).value, NamedMeta("keywords")))
      ensures old(metaTags).None? ==> r == FirstOrBlank(Filter(Filter(PreOrder(list.nodes), isMeta), NamedMeta("keywords")))
      ensures keywords == Some(r)
      ensures old(metaTags).Some? ==>
        metaTags == old(metaTags) && robots == old(robots) && keywords == old(keywords) && description == old(description)
      ensures old(metaTags).None? ==> metaTags == Some(Filter(PreOrder(list.nodes), isMeta))
      ensures ico == old(ico) && icon == old(icon) && title == old(title) && body == old(body)
    {
      InitMetaTags();
      r := keywords.value;
    }

    /** getDescription: the first META named description, from the cache. */
    method GetDescription() returns (r: Option<Node>)
      requires Valid()
      modifies this
      ensures Valid()
      ensures old(metaTags).Some? ==> r == FirstOrBlank(Filter(old(metaTags).value, NamedMeta("description")))
      ensures old(metaTags).None? ==> r == FirstOrBlank(Filter(Filter(PreOrder(list.nodes), isMeta), NamedMeta("description")))
      ensures description == Some(r)
      ensures old(metaTags).Some? ==>
        metaTags == old(metaTags) && robots == old(robots) && keywords == old(keywords) && description == old(description)
      ensures old(metaTags).None? ==> metaTags == Some(Filter(PreOrder(list.nodes), isMeta))
      ensures ico == old(ico) && icon == old(icon) && title == old(title) && body == old(body)
    {
      InitMetaTags();
      r := description.value;
    }

    /** getIco: the first LINK with rel "shortcut icon", from the cache. */
    method GetIco() returns (r: Option<Node>)
      requires Valid()
      modifies this
      ensures Valid()
      ensures old(ico).Some? && old(icon).Some? ==> r == old(ico).value
      ensures !(old(ico).Some? && old(icon).Some?) ==>
        r == FirstOrBlank(Filter(Filter(PreOrder(list.nodes), isLink), RelIs("shortcut icon")))
      ensures ico == Some(r)
      ensures old(ico).Some? && old(icon).Some? ==> ico == old(ico) && icon == old(icon)
      ensures !(old(ico).Some? && old(icon).Some?) ==>
        && ico == Some(FirstOrBlank(Filter(Filter(PreOrder(list.nodes), isLink), RelIs("shortcut icon"))))
        && icon == Some(FirstOrBlank(Filter(Filter(PreOrder(list.nodes), isLink), RelIs("icon"))))
      ensures metaTags == old(metaTags) && robots == old(robots) && keywords == old(keywords)
      ensures description == old(description) && title == old(title) && body == old(body)
    {
      InitIcons();
      r := ico.value;
    }

    /** getIcon: the first LINK with rel "icon", from the cache. */
    method GetIcon() returns (r: Option<Node>)
      requires Valid()
      modifies this
      ensures Valid()
      ensures old(ico).Some? && old(icon).Some? ==> r == old(icon).value
      ensures !(old(ico).Some? && old(icon).Some?) ==>
        r == FirstOrBlank(Filter(Filter(PreOrder(list.nodes), isLink), RelIs("icon")))
      ensures icon == Some(r)
      ensures old(ico).Some? && old(icon).Some? ==> ico == old(ico) && icon == old(icon)
      ensures !(old(ico).Some? && old(icon).Some?) ==>
        && ico == Some(FirstOrBlank(Filter(Filter(PreOrder(list.nodes), isLink), RelIs("shortcut icon"))))
        && icon == Some(FirstOrBlank(Filter(Filter(PreOrder(list.nodes), isLink), RelIs("icon"))))
      ensures metaTags == old(metaTags) && robots == old(robots) && keywords == old(keywords)
      ensures description == old(description) && title == old(title) && body == old(body)
    {
      InitIcons();
      r := icon.value;
    }

    /** getTitle: the first TITLE in pre-order, cached once found (a missing one is searched again). */
    method GetTitle() returns (r: Option<Node>)
      requires Valid()
      modifies this
      ensures Valid()
      ensures old(title).Some? ==> r == old(title)
      ensures old(title).None? ==> r == FirstOrBlank(Filter(PreOrder(list.nodes), isTitle))
      ensures title == r
      ensures metaTags == old(metaTags) && robots == old(robots) && keywords == old(keywords)
      ensures description == old(description) && ico == old(ico) && icon == old(icon) && body == old(body)
    {
      if title.None? {
        var titles := list.ExtractAllNodesThatMatch(isTitle, true);
        ExtractDeep(list.nodes, isTitle);
        title := if titles.nodes == [] then None else Some(titles.nodes[0]);
      }
      r := title;
    }

    /** getBody: the first BODY in pre-order, cached once found. */
    method GetBody() returns (r: Option<Node>)
      requires Valid()
      modifies this
      ensures Valid()
      ensures old(body).Some? ==> r == old(body)
      ensures old(body).None? ==> r == FirstOrBlank(Filter(PreOrder(list.nodes), isBody))
      ensures body == r
      ensures metaTags == old(metaTags) && robots == old(robots) && keywords == old(keywords)
      ensures description == old(description) && ico == old(ico) && icon == old(icon) && title == old(title)
    {
      if body.None? {
        var bodies := list.ExtractAllNodesThatMatch(isBody, true);
        ExtractDeep(list.nodes, isBody);
        body := if bodies.nodes == [] then None else Some(bodies.nodes[0]);
      }
      r := body;
    }

    /** getTitleText, corrected: the title's text when non-empty, else outputIfNone. */
    method GetTitleText(outputIfNone: Option<string>) returns (r: Option<string>)
      requires Valid()
      modifies this
      ensures Valid()
      ensures r == TextOr(if title.Some? then titleOf(title.value) else None, outputIfNone)
      ensures old(title).None? ==> title == FirstOrBlank(Filter(PreOrder(list.nodes), isTitle))
      ensures old(title).Some? ==> title == old(title)
      ensures metaTags == old(metaTags) && robots == old(robots) && keywords == old(keywords)
      ensures description == old(description) && ico == old(ico) && icon == old(icon) && body == old(body)
    {
      var tag := GetTitle();
      var output := if tag.Some? then titleOf(tag.value) else None;
      r := if output.None? || |output.value| == 0 then outputIfNone else output;
    }

    /** getDescriptionText: the description META's content, or outputIfNone. */
    method GetDescriptionText(outputIfNone: Option<string>) returns (r: Option<string>)
      requires Valid()
      modifies this
      ensures Valid()
      ensures description.Some? && r == MetaTagContent(description.value, outputIfNone)
      ensures old(metaTags).None? ==>
        r == MetaTagContent(FirstOrBlank(Filter(Filter(PreOrder(list.nodes), isMeta), NamedMeta("description"))), outputIfNone)
      ensures old(metaTags).Some? ==>
        metaTags == old(metaTags) && robots == old(robots) && keywords == old(keywords) && description == old(description)
      ensures old(metaTags).None? ==> metaTags == Some(Filter(PreOrder(list.nodes), isMeta))
      ensures ico == old(ico) && icon == old(icon) && title == old(title) && body == old(body)
    {
      var tag := GetDescription();
      r := MetaTagContent(tag, outputIfNone);
    }

    /** getKeywordsText: the keywords META's content, or outputIfNone. */
    method GetKeywordsText(outputIfNone: Option<string>) returns (r: Option<string>)
      requires Valid()
      modifies this
      ensures Valid()
      ensures keywords.Some? && r == MetaTagContent(keywords.value, outputIfNone)
      ensures old(metaTags).None? ==>
        r == MetaTagContent(FirstOrBlank(Filter(Filter(PreOrder(list.nodes), isMeta), NamedMeta("keywords"))), outputIfNone)
      ensures old(metaTags).Some? ==>
        metaTags == old(metaTags) && robots == old(robots) && keywords == old(keywords) && description == old(description)
      ensures old(metaTags).None? ==> metaTags == Some(Filter(PreOrder(list.nodes), isMeta))
      ensures ico == old(ico) && icon == old(icon) && title == old(title) && body == old(body)
    {
      var tag := GetKeywords();
      r := MetaTagContent(tag, outputIfNone);
    }

    /** isRobotsMetaTagContentContaining (the HtmlDocument default method). */
    method IsRobotsMetaTagContentContaining(target: string) returns (r: bool)
      requires Valid()
      modifies this
      ensures Valid()
      ensures robots.Some? && (r <==> RobotsContentContains(robots.value, target))
      ensures old(metaTags).None? ==>
        (r <==> RobotsContentContains(FirstOrBlank(Filter(Filter(PreOrder(list.nodes), isMeta), NamedMeta("robots"))), target))
      ensures old(metaTags).Some? ==>
        metaTags == old(metaTags) && robots == old(robots) && keywords == old(keywords) && description == old(description)
      ensures old(metaTags).None? ==> metaTags == Some(Filter(PreOrder(list.nodes), isMeta))
      ensures ico == old(ico) && icon == old(icon) && title == old(title) && body == old(body)
    {
      var meta := GetRobots();
      var content := if meta.Some? then NodeAttribute(meta.value, "content") else None;
      r := content.Some? && Contains(Lower(content.value), target);
    }

    /** getURL: null for an empty list, else the first node's page URL. */
    method GetURL() returns (r: Option<string>)
      ensures list.nodes == [] ==> r.None?
      ensures list.nodes != [] ==> r == urlOf(list.nodes[0])
    {
      if list.nodes == [] {
        r := None;
      } else {
        r := urlOf(list.nodes[0]);
      }
    }
  }
}
