# htmlparser node and tag layer, in Dafny

This project models the node and tag data layer of the htmlparser library
(the `org.htmlparser` Java packages), and proves properties of the model:

- **TagNode** keeps a tag's attribute list. Entry 0 is the tag name, and
  whitespace entries and real attributes follow it. The model covers
  case-insensitive lookup, the quote chosen when a value is set,
  replace-or-append, removal, tag-name normalisation, end-tag detection,
  the flow-breaking name table, and the empty-XML (`<x/>`) toggle.
  Module `Attributes` states these rules as functions over `seq<Attribute>`.
  Class `TagNodes.TagNode` edits its `attributes` field in place, and each of
  its methods is proved against those functions.
- **MetaTag** and **ObjectTag** are built on a `TagNode`. Composition stands
  in for inheritance. The model covers MetaTag's attribute setters and the
  test that triggers its charset action, ObjectTag's PARAM table, and
  ObjectTag's rewriting of its PARAM children.
- **NodeListImpl** and the older **NodeList** share the same list
  algorithms: pre-order extraction, in-place keep-if, prepend, append,
  concatenated HTML and visitor dispatch order. Nodes form a tree datatype
  (`Nodes.Node`). Both classes are proved against the same specification
  functions in module `Nodes`.
- **StringExtractingNodeVisitor** is the text extractor. It has a
  three-state machine that collapses white space as HTML 4.01 section 9.1
  describes, a bounded buffer, newline de-duplication, and PRE, SCRIPT and
  STYLE flags.
- **HtmlDocumentImpl** and **HtmlDocument** select the first match over the
  pre-order node list into lazily filled caches. They also provide fallback
  strings and the robots content test.
- **IteratorImpl** decides whether a lexed node is returned or handed to its
  scanner, and how exceptions are wrapped. **IteratorImpl.Iter** rethrows
  those exceptions unchecked.

The collaborators that are not part of this model stand in as values of
function type: the lexer and page, the scanners, node filters,
`Translate.decode`, the rendering of a node or an attribute, the title text
and the page URL.

## Model

| member | source | states |
|---|---|---|
| Attributes.FindFrom | src/main/java/org/htmlparser/nodes/TagNode.java:313-322 | the index found is the first at or after `i` whose name equals the key ignoring case; None means no later entry matches |
| Attributes.LookupIsFirstMatch | src/main/java/org/htmlparser/nodes/TagNode.java:299-326 | getAttribute gives the first entry, the tag-name entry included, whose name equals the key ignoring case, and null exactly when no entry matches |
| Attributes.WithAttribute | src/main/java/org/htmlparser/nodes/TagNode.java:335-369 | after setAttribute(Attribute) the new attribute is in the list |
| Attributes.WithValue | src/main/java/org/htmlparser/nodes/TagNode.java:198-263 | setAttribute(key, value) keeps the length when the key is present, and otherwise grows the list by one or two entries |
| Attributes.WithoutAttribute | src/main/java/org/htmlparser/nodes/TagNode.java:270-277 | removeAttribute leaves the list unchanged exactly when no entry matches the key, and never adds an entry |
| Attributes.EscapeDoubleQuotes | src/main/java/org/htmlparser/nodes/TagNode.java:244-251 | no `"` is left in the result, and a value without `"` is unchanged |
| Attributes.EscapeDoubleQuotesLength | src/main/java/org/htmlparser/nodes/TagNode.java:244-251 | each `"` adds the five extra characters of `&quot;`, so the result is the value's length plus five per `"` |
| Attributes.EscapeDoubleQuotesAppend | src/main/java/org/htmlparser/nodes/TagNode.java:244-251 | escaping works character by character: the escape of a concatenation is the concatenation of the escapes |
| Attributes.EscapeDoubleQuotesAtQuote | src/main/java/org/htmlparser/nodes/TagNode.java:244-251 | each `"` becomes `&quot;` in place, and the text on either side is escaped on its own, in order |
| Attributes.ChooseQuote | src/main/java/org/htmlparser/nodes/TagNode.java:211-253 | no quote and the value unchanged exactly when the value is null or has no whitespace; with whitespace: `"` and the value unchanged when it has no `"`; else `'` and the value unchanged when it has no `'`; else `"` with the value `EscapeDoubleQuotes(value)`; the chosen quote never occurs in the stored value |
| Attributes.WithAttributeShape | src/main/java/org/htmlparser/nodes/TagNode.java:335-369 | setAttribute(Attribute) keeps the list length iff a same-named entry at index 1 or later exists; otherwise it appends the attribute, after one `" "` entry unless the list is empty or ends in whitespace (growth 0, 1 or 2); entry 0 and every other-named entry are kept |
| Attributes.LookupAfterWithAttribute | src/main/java/org/htmlparser/nodes/TagNode.java:335-369 | after setAttribute(Attribute) a lookup of its name finds the new attribute, unless entry 0 (never replaced) already has that name |
| Attributes.WithValueExisting | src/main/java/org/htmlparser/nodes/TagNode.java:254-260 | setAttribute(key, value) on a present key changes only that entry: its name is kept, its value becomes the chosen value, and its quote changes only when a quote was chosen |
| Attributes.ValueAfterWithValue | src/main/java/org/htmlparser/nodes/TagNode.java:198-263 | after setAttribute(key, value), getAttributeValue(key) returns the chosen (possibly escaped) value |
| Attributes.WithValueAbsent | src/main/java/org/htmlparser/nodes/TagNode.java:254-262 | on an absent key, the old list is kept as a prefix and the new attribute, with the chosen value and quote, comes last |
| Attributes.LookupAfterRemove | src/main/java/org/htmlparser/nodes/TagNode.java:270-277 | removeAttribute drops exactly one entry, and the next lookup finds the following match, shifted by one, or nothing |
| Attributes.TagName | src/main/java/org/htmlparser/nodes/TagNode.java:397-412 | getTagName is null exactly when the raw name is; otherwise it is upper case and at most two characters shorter than the raw name |
| Attributes.IsEndTag | src/main/java/org/htmlparser/nodes/TagNode.java:806-813 | an end tag (raw name starting with `/`) has a tag name, shorter than its raw name: the slash is not part of it |
| Attributes.BreaksFlow | src/main/java/org/htmlparser/nodes/TagNode.java:663-666 | a tag whose raw name is null or empty never breaks the flow |
| Attributes.WithTagName | src/main/java/org/htmlparser/nodes/TagNode.java:441-466 | after setTagName the raw tag name is the given one, and the list grows by at most one entry |
| Attributes.IsEmptyXmlTag | src/main/java/org/htmlparser/nodes/TagNode.java:688-714 | wherever isEmptyXmlTag as written does not throw, it answers the same: the last entry is named and its name ends in `/` |
| Attributes.WithEmptyXml | src/main/java/org/htmlparser/nodes/TagNode.java:722-799 | setEmptyXmlTag removes at most one entry and adds at most two |
| Attributes.NormalizeTagNameShape | src/main/java/org/htmlparser/nodes/TagNode.java:397-412 | getTagName is upper case, at most two characters shorter than the raw name, and equals the upper-cased raw name when it neither starts nor ends with `/` |
| Attributes.NormalizeStripsBothSlashes | src/main/java/org/htmlparser/nodes/TagNode.java:397-412 | a raw name `/x/` gives the upper-cased `x` |
| Attributes.NormalizeStripsTrailingSlash | src/main/java/org/htmlparser/nodes/TagNode.java:397-412 | a raw name `x/`, with no leading slash, gives the upper-cased `x` |
| Attributes.EndTagNameMatchesStartTag | src/main/java/org/htmlparser/nodes/TagNode.java:397-412 | an end tag `/x` has the same tag name as its start tag `x` |
| Attributes.BreaksFlowOfEndTag | src/main/java/org/htmlparser/nodes/TagNode.java:663-666 | breaksFlow looks only at the normalised name, so an end tag breaks flow exactly when its start tag does |
| Attributes.WithTagNameShape | src/main/java/org/htmlparser/nodes/TagNode.java:441-466 | after setTagName the raw name is the given one, isEndTag holds iff it starts with `/`, and the list grows by one exactly when entry 0 is missing or has a value or a quote (otherwise entry 0 is replaced) |
| Attributes.WithEmptyXmlMakesEmpty | src/main/java/org/htmlparser/nodes/TagNode.java:722-799 | after setEmptyXmlTag(true), isEmptyXmlTag holds, a second call changes nothing, and the old entries remain a prefix |
| Attributes.WithEmptyXmlRemovesSlash | src/main/java/org/htmlparser/nodes/TagNode.java:743-745 | setEmptyXmlTag(false) removes a trailing lone `/` entry |
| Attributes.WithEmptyXmlFalseShrinks | src/main/java/org/htmlparser/nodes/TagNode.java:722-799 | setEmptyXmlTag(false) never lengthens the list, and leaves a tag that is not empty-XML unchanged |
| Attributes.EmptyNameThrows | src/main/java/org/htmlparser/nodes/TagNode.java:705-708 | as written, isEmptyXmlTag and setEmptyXmlTag throw StringIndexOutOfBoundsException on the list `new TagNode()` builds (one entry named ""); the corrected rules answer false and append `" "` and `/` |
| Attributes.AsWrittenAgreesOnNamedTags | src/main/java/org/htmlparser/nodes/TagNode.java:688-799 | whenever the last entry's name is not "", the code as written and the corrected rules agree |
| Attributes.GetText | src/main/java/org/htmlparser/nodes/TagNode.java:590-616 | toTagHtml is getText's text wrapped in `<` and `>` |
| TagNodes.TagNode.Find | src/main/java/org/htmlparser/nodes/TagNode.java:299-326 | the loop's index is the first entry matching the key ignoring case |
| TagNodes.TagNode.GetAttribute | src/main/java/org/htmlparser/nodes/TagNode.java:299-326 | returns the first matching entry, and null exactly when no entry matches |
| TagNodes.TagNode.GetAttributeValue | src/main/java/org/htmlparser/nodes/TagNode.java:177-189 | the value of the first matching entry, or null |
| TagNodes.TagNode.SetAttributeValue | src/main/java/org/htmlparser/nodes/TagNode.java:198-263 | the character loop picks the quote of `ChooseQuote`, and the list becomes the replace-or-append result |
| TagNodes.TagNode.RemoveAttribute | src/main/java/org/htmlparser/nodes/TagNode.java:270-277 | the first matching entry is removed |
| TagNodes.TagNode.SetAttributeQuoted | src/main/java/org/htmlparser/nodes/TagNode.java:287-290 | setAttribute(key, value, quote) is setAttribute(Attribute) with that attribute |
| TagNodes.TagNode.SetAttribute | src/main/java/org/htmlparser/nodes/TagNode.java:335-369 | the loop replaces every same-named entry after entry 0, or appends |
| TagNodes.TagNode.SetTagName | src/main/java/org/htmlparser/nodes/TagNode.java:441-466 | the raw tag name becomes the given name |
| TagNodes.TagNode.SetEmptyXmlTag | src/main/java/org/htmlparser/nodes/TagNode.java:722-799 | the corrected toggle; after setEmptyXmlTag(true) the tag is empty-XML |
| TagNodes.TagNode.ToTagHtml | src/main/java/org/htmlparser/nodes/TagNode.java:590-616 | the rendered attributes inside `<` and `>` |
| TagNodes.TagNode.GetText | src/main/java/org/htmlparser/nodes/TagNode.java:473-481 | the concatenated rendering of every entry |
| MetaTags.MetaValueRoundTrip | src/main/java/org/htmlparser/tags/MetaTag.java:94-130 | after a setter, the matching getter returns the value set |
| MetaTags.MetaValueLeavesOthers | src/main/java/org/htmlparser/tags/MetaTag.java:94-130 | a setter changes no other attribute's value and not the tag name |
| MetaTags.WithMetaValue | src/main/java/org/htmlparser/tags/MetaTag.java:94-130 | a MetaTag setter keeps every entry's name and grows the list by at most one entry |
| MetaTags.MetaTag.GetMetaAttribute | src/main/java/org/htmlparser/tags/MetaTag.java:65-88 | getHttpEquiv, getMetaContent and getMetaTagName are case-insensitive lookups, null when absent |
| MetaTags.MetaTag.SetMetaAttribute | src/main/java/org/htmlparser/tags/MetaTag.java:94-130 | the found entry's value changes in place, or an unquoted entry is appended with no whitespace before it; the getter then returns the value |
| MetaTags.MetaTag.DoSemanticAction | src/main/java/org/htmlparser/tags/MetaTag.java:137-150 | the charset is set iff HTTP-EQUIV equals Content-Type ignoring case (a null HTTP-EQUIV does nothing), and it comes from the CONTENT value |
| ObjectTags.AddParam | src/org/htmlparser/tags/ObjectTag.java:107-121 | one child adds to the table at most: a failed table stays failed, keys are only added, and a child that is not a PARAM tag changes nothing unless it throws |
| ObjectTags.CollectParams | src/org/htmlparser/tags/ObjectTag.java:105-123 | over the children, a failure sticks and keys are only added |
| ObjectTags.StripParams | src/org/htmlparser/tags/ObjectTag.java:318-342 | the removal never lengthens the child list, and it cannot throw when no child is a nameless tag |
| ObjectTags.CollectParamsAppend | src/org/htmlparser/tags/ObjectTag.java:105-123 | collecting over two runs of children is collecting over the first and then the second |
| ObjectTags.CollectParamsIgnoresOthers | src/org/htmlparser/tags/ObjectTag.java:107-123 | children that are not PARAM tags leave the table unchanged |
| ObjectTags.ErrStaysErr | src/org/htmlparser/tags/ObjectTag.java:96-104 | once the null-rejecting table has thrown, the call has failed |
| ObjectTags.StripParamsLeavesNoParams | src/org/htmlparser/tags/ObjectTag.java:319-342 | when the removal does not throw, no PARAM tag is left among the children |
| ObjectTags.StripParamsKeepsOthers | src/org/htmlparser/tags/ObjectTag.java:319-342 | every child that is neither a PARAM tag nor whitespace-only text survives, in its original order |
| ObjectTags.ParamTagReadBack | src/org/htmlparser/tags/ObjectTag.java:345-357 | a written `<PARAM VALUE="v" NAME="KEY">` is read back as the entry KEY (upper-cased) to v |
| ObjectTags.ParamTagsReadBack | src/org/htmlparser/tags/ObjectTag.java:345-357 | the PARAM tags written for a table read back as that table |
| ObjectTags.SetThenReadParams | src/org/htmlparser/tags/ObjectTag.java:304-361 | after setObjectParams, createObjectParamsTable returns the table that was set, with its keys upper-cased |
| ObjectTags.EntriesTableLookup | src/org/htmlparser/tags/ObjectTag.java:345-357 | each set entry is found under its upper-cased key |
| ObjectTags.CollectParamsLoop | src/org/htmlparser/tags/ObjectTag.java:106-123 | the loop over the children builds exactly the PARAM table of the list, or ends in NullPointerException at the first nameless tag or PARAM with NAME and no VALUE |
| ObjectTags.RemoveParams | src/org/htmlparser/tags/ObjectTag.java:318-342 | the index loop that deletes each PARAM tag, and a blank text right after it, yields the removal's outcome: the list without them, or the list as it stood when a nameless tag threw |
| ObjectTags.AppendParamTags | src/org/htmlparser/tags/ObjectTag.java:344-357 | the second loop appends one PARAM tag per entry, in order, after the remaining children |
| ObjectTags.ObjectTag.CreateObjectParamsTable | src/org/htmlparser/tags/ObjectTag.java:87-126 | the loop's table is the PARAM table of the children, or NullPointerException for a PARAM with NAME and no VALUE |
| ObjectTags.ObjectTag.GetParameter | src/org/htmlparser/tags/ObjectTag.java:214-217 | looks up the upper-cased key in the table |
| ObjectTags.ObjectTag.GetParameterNames | src/org/htmlparser/tags/ObjectTag.java:223-226 | the table's keys |
| ObjectTags.ObjectTag.GetObjectAttribute | src/org/htmlparser/tags/ObjectTag.java:132-198 | each of the eight getters is the attribute's value, or null |
| ObjectTags.ObjectTag.SetObjectAttribute | src/org/htmlparser/tags/ObjectTag.java:232-298 | each of the eight setters is setAttribute(key, value); the getter then returns the value stored |
| ObjectTags.ObjectTag.SetObjectParams | src/org/htmlparser/tags/ObjectTag.java:304-361 | the in-place loop removes PARAM tags and each following blank text, throws on a nameless tag, then appends one PARAM tag per entry |
| Nodes.Filter | src/main/java/org/htmlparser/util/NodeListImpl.java:119-121 | the result holds only accepted nodes and is no longer than the input |
| Nodes.Extract | src/main/java/org/htmlparser/util/NodeListImpl.java:131-151 | extractAllNodesThatMatch returns only nodes the filter accepts |
| Nodes.PreOrder | src/main/java/org/htmlparser/util/NodeListImpl.java:131-151 | the recursive walk visits at least every top-level element |
| Nodes.Keep | src/main/java/org/htmlparser/util/NodeListImpl.java:166-187 | keepAllNodesThatMatch never lengthens the list |
| Nodes.FilterAppend | src/main/java/org/htmlparser/util/NodeListImpl.java:131-151 | filtering distributes over concatenation, so the original order is kept |
| Nodes.ExtractShallow | src/main/java/org/htmlparser/util/NodeListImpl.java:131-151 | non-recursive extraction is the accepted elements in order |
| Nodes.ExtractDeep | src/main/java/org/htmlparser/util/NodeListImpl.java:131-151 | recursive extraction is the accepted nodes of the pre-order walk, each node before the matches among its children |
| Nodes.ExtractOneDeep | src/org/htmlparser/util/NodeList.java:148-159 | one node's recursive extraction is the accepted nodes among itself and then its descendants |
| Nodes.PreOrderAppend | src/main/java/org/htmlparser/util/NodeListImpl.java:269-274 | the pre-order walk distributes over concatenation |
| Nodes.PreOrderContainsElements | src/main/java/org/htmlparser/util/NodeListImpl.java:269-274 | every top-level element is visited by the walk |
| Nodes.KeepIsFilter | src/main/java/org/htmlparser/util/NodeListImpl.java:166-187 | keepAllNodesThatMatch keeps exactly the accepted top-level elements, in order; recursion changes only the kept elements' children |
| Nodes.KeepAppend | src/main/java/org/htmlparser/util/NodeListImpl.java:166-187 | keeping distributes over concatenation |
| Nodes.KeepAllAccepted | src/main/java/org/htmlparser/util/NodeListImpl.java:166-187 | when every node of the tree is accepted, nothing changes |
| Nodes.HtmlAppend | src/main/java/org/htmlparser/util/NodeListImpl.java:78-84 | the HTML of a concatenation is the concatenation of the HTML |
| Nodes.VisitTrace | src/main/java/org/htmlparser/util/NodeListImpl.java:203-212 | beginParsing, then accept on every element in order, then finishedParsing |
| Nodes.AcceptTag | src/main/java/org/htmlparser/nodes/TagNode.java:675-681 | a tag is visited as an end tag iff its raw name starts with `/` |
| Nodes.FirstFilteredIsFirstMatch | src/main/java/org/htmlparser/util/NodeListImpl.java:233-238 | the first accepted node is the earliest match, and there is none iff nothing matches |
| NodeLists.KeepInPlace | src/main/java/org/htmlparser/util/NodeListImpl.java:171-186 | the index loop, removing a rejected element where it stands and stepping past an accepted one, leaves exactly the kept list |
| NodeLists.PruneChildren | src/main/java/org/htmlparser/util/NodeListImpl.java:179-184 | when recursive, a kept tag's child list is filtered the same way; otherwise the node is unchanged |
| NodeLists.NodeListImpl.Add | src/main/java/org/htmlparser/util/NodeListImpl.java:23-26 | the inherited add(Node), as the one-node constructor uses it, appends the node |
| NodeLists.NodeListImpl.AddList | src/main/java/org/htmlparser/util/NodeListImpl.java:40-42 | appends every element of the other list, in order |
| NodeLists.NodeListImpl.Prepend | src/main/java/org/htmlparser/util/NodeListImpl.java:48-50 | inserts at index 0 and shifts the rest by one |
| NodeLists.NodeListImpl.RemoveAll | src/main/java/org/htmlparser/util/NodeListImpl.java:94-96 | the list becomes empty |
| NodeLists.NodeListImpl.ToHtml | src/main/java/org/htmlparser/util/NodeListImpl.java:78-84 | the in-order concatenation of each element's toHtml(verbatim) |
| NodeLists.NodeListImpl.ToHtmlDefault | src/main/java/org/htmlparser/util/NodeListImpl.java:90-92 | toHtml() is toHtml(false) |
| NodeLists.NodeListImpl.ExtractAllNodesThatMatch | src/main/java/org/htmlparser/util/NodeListImpl.java:131-151 | a fresh list holding the extraction; the receiver is unchanged |
| NodeLists.NodeListImpl.ExtractMatching | src/main/java/org/htmlparser/util/NodeListImpl.java:119-121 | the one-argument form is the non-recursive filter |
| NodeLists.NodeListImpl.KeepAllNodesThatMatch | src/main/java/org/htmlparser/util/NodeListImpl.java:166-187 | the in-place loop leaves exactly the kept list |
| NodeLists.NodeListImpl.KeepMatching | src/main/java/org/htmlparser/util/NodeListImpl.java:157-159 | the one-argument form keeps the accepted elements in order |
| NodeLists.NodeListImpl.VisitAllNodesWith | src/main/java/org/htmlparser/util/NodeListImpl.java:203-212 | the visitor sees beginParsing, every element in order, then finishedParsing |
| NodeLists.NodeListImpl.GetElements | src/main/java/org/htmlparser/util/NodeListImpl.java:269-274 | the accepted nodes of the pre-order walk |
| NodeLists.NodeListImpl.GetElementById | src/main/java/org/htmlparser/util/NodeListImpl.java:233-238 | the first pre-order node with the id; a blank result iff no node has it |
| LegacyNodeLists.NodeList.Add | src/org/htmlparser/util/NodeList.java:42-45 | the inherited add(Node), as the one-node constructor uses it, appends the node |
| LegacyNodeLists.NodeList.AddList | src/org/htmlparser/util/NodeList.java:51-53 | appends every element of the other list, in order |
| LegacyNodeLists.NodeList.Prepend | src/org/htmlparser/util/NodeList.java:59-61 | inserts at the head |
| LegacyNodeLists.NodeList.RemoveAll | src/org/htmlparser/util/NodeList.java:105-107 | the list becomes empty |
| LegacyNodeLists.NodeList.ToHtml | src/org/htmlparser/util/NodeList.java:89-95 | the in-order concatenation of each element's toHtml(verbatim) |
| LegacyNodeLists.NodeList.ToHtmlDefault | src/org/htmlparser/util/NodeList.java:101-103 | toHtml() is toHtml(false) |
| LegacyNodeLists.NodeList.ExtractAllNodesThatMatch | src/org/htmlparser/util/NodeList.java:142-162 | a fresh list holding the extraction; the receiver is unchanged |
| LegacyNodeLists.NodeList.ExtractMatching | src/org/htmlparser/util/NodeList.java:130-132 | the one-argument form is the non-recursive filter |
| LegacyNodeLists.NodeList.ExtractDeepMatches | src/org/htmlparser/util/NodeList.java:148-159 | recursive extraction is the accepted nodes in pre-order |
| LegacyNodeLists.NodeList.KeepAllNodesThatMatch | src/org/htmlparser/util/NodeList.java:177-198 | the in-place loop leaves exactly the kept list |
| LegacyNodeLists.NodeList.KeepMatching | src/org/htmlparser/util/NodeList.java:168-170 | the one-argument form keeps the accepted elements in order |
| LegacyNodeLists.NodeList.VisitAllNodesWith | src/org/htmlparser/util/NodeList.java:211-220 | beginParsing, every element in order, then finishedParsing |
| StringExtraction.CollapseStep | src/org/htmlparser/beans/StringExtractingNodeVisitor.java:176-192 | white space moves state 0 to 0 and states 1 and 2 to 1, and emits nothing; any other character moves to 2 and is emitted, after one space when the state was 1 |
| StringExtraction.NonWhite | src/org/htmlparser/beans/StringExtractingNodeVisitor.java:215-223 | no character of U+0020, U+0009, U+000C, U+200B, CR or LF is kept |
| StringExtraction.CollapseKeepsWords | src/org/htmlparser/beans/StringExtractingNodeVisitor.java:196-232 | with its spaces removed, the output is exactly the input's non-white characters, in order |
| StringExtraction.CollapseFromResetIsCollapsed | src/org/htmlparser/beans/StringExtractingNodeVisitor.java:176-192 | from state 0 the output neither starts nor ends with a space and has no two adjacent spaces |
| StringExtraction.CollapsePrefixOfCollapsed | src/org/htmlparser/beans/StringExtractingNodeVisitor.java:196-232 | collapsing a prefix of already collapsed text reproduces it, holding back a trailing space as state 1 |
| StringExtraction.CollapseIdempotent | src/org/htmlparser/beans/StringExtractingNodeVisitor.java:196-232 | collapsing collapsed text changes nothing |
| StringExtraction.CollapseRunStep | src/org/htmlparser/beans/StringExtractingNodeVisitor.java:212-230 | the character loop's step extends the run by one character |
| StringExtraction.CollapseLength | src/org/htmlparser/beans/StringExtractingNodeVisitor.java:196-232 | the output, counting a pending space, is never longer than the input plus a pending space |
| StringExtraction.CarriageReturned | src/org/htmlparser/beans/StringExtractingNodeVisitor.java:162-174 | the buffer is kept or gains one line separator, and only within the size bound |
| StringExtraction.CarriageReturnIdempotent | src/org/htmlparser/beans/StringExtractingNodeVisitor.java:162-174 | two calls in a row add at most one line separator |
| StringExtraction.CarriageReturnEndsLine | src/org/htmlparser/beans/StringExtractingNodeVisitor.java:162-174 | on a non-empty buffer at least as long as the separator, with room left, the buffer then ends with the separator |
| StringExtraction.ReplaceNonBreakingSpaces | src/org/htmlparser/beans/StringExtractingNodeVisitor.java:427-428 | every U+00A0 becomes a space and nothing else changes |
| StringExtraction.StringExtractingNodeVisitor.constructor | src/org/htmlparser/beans/StringExtractingNodeVisitor.java:105-135 | a non-negative buffer size is required; the defaults: links off, non-breaking spaces replaced, collapsing on, empty buffer, no strings, state 0 |
| StringExtraction.StringExtractingNodeVisitor.Reset | src/org/htmlparser/beans/StringExtractingNodeVisitor.java:137-152 | every field returns to its default |
| StringExtraction.StringExtractingNodeVisitor.CarriageReturn | src/org/htmlparser/beans/StringExtractingNodeVisitor.java:162-174 | the buffer gains the separator as CarriageReturned says, and the state becomes 0 |
| StringExtraction.CollapseChar | src/org/htmlparser/beans/StringExtractingNodeVisitor.java:209-229 | one character through the machine: the buffer gains exactly what CollapseStep emits and the state becomes CollapseStep's |
| StringExtraction.CollapseInto | src/org/htmlparser/beans/StringExtractingNodeVisitor.java:205-231 | the character loop appends the machine's output for the whole text and ends in its final state |
| StringExtraction.StringExtractingNodeVisitor.Collapse | src/org/htmlparser/beans/StringExtractingNodeVisitor.java:196-232 | nothing changes when the text would reach maxSize; otherwise the character loop appends the machine's output and keeps its state |
| StringExtraction.StringExtractingNodeVisitor.UpdateStrings | src/org/htmlparser/beans/StringExtractingNodeVisitor.java:238-249 | the extracted strings are set |
| StringExtraction.StringExtractingNodeVisitor.ResetStrings | src/org/htmlparser/beans/StringExtractingNodeVisitor.java:251-258 | extracted strings are dropped together with the buffer |
| StringExtraction.StringExtractingNodeVisitor.GetStrings | src/org/htmlparser/beans/StringExtractingNodeVisitor.java:293-302 | the buffer is copied into the strings only when there are none and the buffer is non-empty; null when both are empty |
| StringExtraction.StringExtractingNodeVisitor.SetLinks | src/org/htmlparser/beans/StringExtractingNodeVisitor.java:321-331 | a change of the setting drops extracted strings |
| StringExtraction.StringExtractingNodeVisitor.SetReplaceNonBreakingSpaces | src/org/htmlparser/beans/StringExtractingNodeVisitor.java:354-364 | a change of the setting drops extracted strings |
| StringExtraction.StringExtractingNodeVisitor.SetCollapse | src/org/htmlparser/beans/StringExtractingNodeVisitor.java:394-405 | a change of the setting drops extracted strings; the machine restarts in state 0 |
| StringExtraction.StringExtractingNodeVisitor.VisitStringNode | src/org/htmlparser/beans/StringExtractingNodeVisitor.java:416-438 | nothing is appended inside SCRIPT or STYLE, or when the text would reach maxSize; inside PRE the text goes in verbatim; otherwise it is decoded, has non-breaking spaces replaced if set, and is collapsed if set |
| StringExtraction.StringExtractingNodeVisitor.VisitTag | src/org/htmlparser/beans/StringExtractingNodeVisitor.java:446-474 | PRE, SCRIPT or STYLE (ignoring case) sets its flag; a link is appended in angle brackets when links are on and it fits; a flow-breaking tag ends the line; a tag with no name throws NullPointerException |
| StringExtraction.StringExtractingNodeVisitor.AppendLink | src/org/htmlparser/beans/StringExtractingNodeVisitor.java:448-461 | with links on, the link goes in between angle brackets exactly when the buffer stays under maxSize; otherwise the buffer is unchanged |
| StringExtraction.StringExtractingNodeVisitor.NameStep | src/org/htmlparser/beans/StringExtractingNodeVisitor.java:464-473 | a null tag name throws NullPointerException and changes nothing; otherwise the PRE, SCRIPT or STYLE flag is set and a flow-breaking tag ends the line |
| StringExtraction.StringExtractingNodeVisitor.SetFlags | src/org/htmlparser/beans/StringExtractingNodeVisitor.java:465-471 | PRE, else SCRIPT, else STYLE, compared ignoring case, sets that one flag; the others keep their values |
| StringExtraction.StringExtractingNodeVisitor.VisitEndTag | src/org/htmlparser/beans/StringExtractingNodeVisitor.java:481-492 | the end tag of PRE, SCRIPT or STYLE clears its flag and nothing else changes |
| StringExtraction.EndTagClearsStartTagFlag | src/org/htmlparser/beans/StringExtractingNodeVisitor.java:464-491 | an end tag `/x` is matched against the same name as its start tag `x` |
| HtmlDocuments.FirstStep | src/main/java/org/htmlparser/dom/HtmlDocumentImpl.java:48-65 | one step of the selection loop keeps the first match found so far, or takes the current node when it is the first |
| HtmlDocuments.FirstOfPrefix | src/main/java/org/htmlparser/dom/HtmlDocumentImpl.java:76-98 | a match found in a prefix is the first match of the whole list, so the scan may stop |
| HtmlDocuments.SelectNamedMetas | src/main/java/org/htmlparser/dom/HtmlDocumentImpl.java:48-65 | robots, keywords and description are each the first META whose name attribute equals the word exactly, or blank |
| HtmlDocuments.SelectIcons | src/main/java/org/htmlparser/dom/HtmlDocumentImpl.java:76-98 | ico and icon are the first LINKs whose trimmed, lower-cased rel is "shortcut icon" or "icon"; LINKs with no rel are skipped; the loop stops once both are found |
| HtmlDocuments.TextOr | src/main/java/org/htmlparser/dom/HtmlDocumentImpl.java:181-189 | the text when present and non-empty, the fallback otherwise |
| HtmlDocuments.MetaTagContent | src/main/java/org/htmlparser/dom/HtmlDocumentImpl.java:181-189 | getMetaTagContent gives the fallback for a null tag; any other answer is the tag's non-empty content attribute |
| HtmlDocuments.RobotsContentContains | src/main/java/org/htmlparser/dom/HtmlDocument.java:20-24 | a match needs a robots META with a content attribute at least as long as the target |
| HtmlDocuments.TitleTextAsWrittenLosesTitle | src/main/java/org/htmlparser/dom/HtmlDocumentImpl.java:157-167 | as written, getTitleText gives null exactly where a title text exists, and agrees with the fallback rule elsewhere |
| HtmlDocuments.TitleTextAsWrittenExample | src/main/java/org/htmlparser/dom/HtmlDocumentImpl.java:166 | the title "Home" with fallback "Untitled" gives null as written, "Home" as intended |
| HtmlDocuments.UpperCaseTargetNeverMatches | src/main/java/org/htmlparser/dom/HtmlDocument.java:20-24 | a target holding an upper-case letter never matches, since only the content is lower-cased |
| HtmlDocuments.EmptyTargetMatchesAnyContent | src/main/java/org/htmlparser/dom/HtmlDocument.java:20-24 | the empty target matches exactly when a robots META with content exists |
| HtmlDocuments.HtmlDocumentImpl.InitMetaTags | src/main/java/org/htmlparser/dom/HtmlDocumentImpl.java:32-66 | the META list is computed once from the pre-order walk, and robots, keywords and description are filled with it; later calls change nothing |
| HtmlDocuments.HtmlDocumentImpl.InitIcons | src/main/java/org/htmlparser/dom/HtmlDocumentImpl.java:68-99 | unless both icons are cached, they become the first matching LINKs of the pre-order walk |
| HtmlDocuments.SelectMatching | src/main/java/org/htmlparser/dom/HtmlDocumentImpl.java:103-111 | the loop keeps the METAs the filter accepts, in list order |
| HtmlDocuments.HtmlDocumentImpl.CollectMetas | src/main/java/org/htmlparser/dom/HtmlDocumentImpl.java:36-46 | the META tags of the pre-order walk, in order |
| HtmlDocuments.HtmlDocumentImpl.GetMetaTagsMatching | src/main/java/org/htmlparser/dom/HtmlDocumentImpl.java:101-114 | the accepted METAs of the cached list, in order; the META list is the pre-order METAs on first use and kept after, with robots, keywords and description its first entries of those names; the icons, title and body are unchanged |
| HtmlDocuments.HtmlDocumentImpl.GetMetaTags | src/main/java/org/htmlparser/dom/HtmlDocumentImpl.java:209-213 | the cached META list, computed on first use; the META list is the pre-order METAs on first use and kept after, with robots, keywords and description its first entries of those names; the icons, title and body are unchanged |
| HtmlDocuments.HtmlDocumentImpl.GetRobots | src/main/java/org/htmlparser/dom/HtmlDocumentImpl.java:121-125 | the first META named "robots", of the cached list or else of the pre-order walk; the META list is the pre-order METAs on first use and kept after, with robots, keywords and description its first entries of those names; the icons, title and body are unchanged |
| HtmlDocuments.HtmlDocumentImpl.GetKeywords | src/main/java/org/htmlparser/dom/HtmlDocumentImpl.java:127-131 | the first META named "keywords", of the cached list or else of the pre-order walk; the META list is the pre-order METAs on first use and kept after, with robots, keywords and description its first entries of those names; the icons, title and body are unchanged |
| HtmlDocuments.HtmlDocumentImpl.GetDescription | src/main/java/org/htmlparser/dom/HtmlDocumentImpl.java:133-137 | the first META named "description", of the cached list or else of the pre-order walk; the META list is the pre-order METAs on first use and kept after, with robots, keywords and description its first entries of those names; the icons, title and body are unchanged |
| HtmlDocuments.HtmlDocumentImpl.GetIco | src/main/java/org/htmlparser/dom/HtmlDocumentImpl.java:142-146 | the first "shortcut icon" LINK; unless both were cached, ico and icon both become the first matching LINKs of the pre-order walk; the META caches, title and body are unchanged |
| HtmlDocuments.HtmlDocumentImpl.GetIcon | src/main/java/org/htmlparser/dom/HtmlDocumentImpl.java:151-155 | the first "icon" LINK; unless both were cached, ico and icon both become the first matching LINKs of the pre-order walk; the META caches, title and body are unchanged |
| HtmlDocuments.HtmlDocumentImpl.GetTitle | src/main/java/org/htmlparser/dom/HtmlDocumentImpl.java:191-198 | the first TITLE in pre-order, cached |
| HtmlDocuments.HtmlDocumentImpl.GetBody | src/main/java/org/htmlparser/dom/HtmlDocumentImpl.java:200-207 | the first BODY in pre-order, cached |
| HtmlDocuments.HtmlDocumentImpl.GetTitleText | src/main/java/org/htmlparser/dom/HtmlDocumentImpl.java:157-167 | corrected: the title text when present and non-empty, the fallback otherwise |
| HtmlDocuments.HtmlDocumentImpl.GetDescriptionText | src/main/java/org/htmlparser/dom/HtmlDocumentImpl.java:169-173 | the content of the cached description META, or on first use of the document's first META named "description", when non-empty; the fallback otherwise; the META list is the pre-order METAs on first use and kept after, with robots, keywords and description its first entries of those names; the icons, title and body are unchanged |
| HtmlDocuments.HtmlDocumentImpl.GetKeywordsText | src/main/java/org/htmlparser/dom/HtmlDocumentImpl.java:175-179 | the content of the cached keywords META, or on first use of the document's first META named "keywords", when non-empty; the fallback otherwise; the META list is the pre-order METAs on first use and kept after, with robots, keywords and description its first entries of those names; the icons, title and body are unchanged |
| HtmlDocuments.HtmlDocumentImpl.IsRobotsMetaTagContentContaining | src/main/java/org/htmlparser/dom/HtmlDocument.java:20-24 | false with no robots META (the cached one, or on first use the document's first) or no content; otherwise whether the lower-cased content contains the target; the META list is the pre-order METAs on first use and kept after, with robots, keywords and description its first entries of those names; the icons, title and body are unchanged |
| HtmlDocuments.HtmlDocumentImpl.GetURL | src/main/java/org/htmlparser/dom/HtmlDocumentImpl.java:116-119 | null for an empty list, otherwise the first node's page URL |
| Iterators.WrapMessageMentions | src/main/java/org/htmlparser/util/IteratorImpl.java:140-152 | the wrapping message starts with the iterator's name and contains the page URL, the line number and the line's text |
| Iterators.NextOutcome | src/main/java/org/htmlparser/util/IteratorImpl.java:106-155 | every Exception next() throws leaves it as a ParserException |
| Iterators.NextReturnsLexed | src/main/java/org/htmlparser/util/IteratorImpl.java:115-123 | a lexed null, non-tag or end tag, or any node when not recursing, is returned as lexed |
| Iterators.ParserExceptionPassesThrough | src/main/java/org/htmlparser/util/IteratorImpl.java:136-152 | every Exception next() throws leaves it as a ParserException: the lexer's own is rethrown unchanged, and any other is wrapped with the URL in its message |
| Iterators.IteratorImpl.constructor | src/main/java/org/htmlparser/util/IteratorImpl.java:68-70 | the two-argument constructor recurses |
| Iterators.IteratorImpl.HasNext | src/main/java/org/htmlparser/util/IteratorImpl.java:90-98 | the cursor moves to the lexer's position, and the answer is whether a character is there |
| Iterators.IteratorImpl.Next | src/main/java/org/htmlparser/util/IteratorImpl.java:106-155 | the scan-or-return outcome; a wrapped exception is reported to the feedback exactly once before it is thrown |
| Iterators.Iter.Next | src/main/java/org/htmlparser/util/IteratorImpl.java:54-60 | the delegate's node, or its exception, always a ParserException, inside a RuntimeException |
| Iterators.Iter.HasNext | src/main/java/org/htmlparser/util/IteratorImpl.java:46-52 | the delegate's answer: the cursor moves to the lexer's position, and more nodes exist exactly when a character is there |

## Left out

- The lexer, the page, the cursor, the scanners and `Translate.decode` are not part of this model. They are function-valued parameters: the lexer and scanner map a position to an outcome and a new position, and `decode` maps text to text.
- Node filters are opaque predicates over nodes. HtmlDocumentImpl casts a filter's matches to MetaTag or Tag; a filter that accepted a non-tag would throw ClassCastException there, which the model does not capture (a non-tag simply has no attributes).
- Rendering a node or an attribute (`Node.toHtml`, `Attribute.toString`) is a function parameter; the model does not know what it writes.
- Upper- and lower-casing cover ASCII letters only; locale-dependent case mapping is not modelled.
- The system line separator is a constructor parameter of StringExtractingNodeVisitor.
- Java `int` lengths cannot overflow in the model; integers are unbounded.
- Strings are sequences of Unicode scalar values, while Java counts a string's length in UTF-16 code units. The maxSize tests of StringExtractingNodeVisitor (src/org/htmlparser/beans/StringExtractingNodeVisitor.java lines 168, 202, 422 and 455) count a character outside the Basic Multilingual Plane as 2 in Java and as 1 in the model, so close to the bound the model can append text the source refuses.
- Lists, attribute objects and children lists are values. The Java code shares them: `Attribute.setValue` changes an attribute that other lists may hold, and setObjectParams edits the very list getChildren returned. That aliasing is not modelled.
- Lists in the model hold no null elements, so the null-first-element branch of getURL is not modelled.
- ObjectTags.ObjectTag.SetObjectParams: the map's keys are non-null, and its iteration order is taken to be the order of the given entry sequence, because HashMap order is unspecified.
- ObjectTags.ObjectTag.GetObjectAttribute and SetObjectAttribute model the eight named getters and setters (CLASSID, CODEBASE, CODETYPE, DATA, HEIGHT, STANDBY, TYPE, WIDTH) as one method keyed by the attribute name.
- MetaTags.MetaTag.GetMetaAttribute and SetMetaAttribute likewise stand for the three named getters and setters.
- MetaTags.MetaTag.DoSemanticAction returns the CONTENT value it would hand on. The charset lookup, `Page.setEncoding`, and the ParserException that can propagate from it are left out.
- Iterators.IteratorImpl.HasNext: `Page.getCharacter` may advance the cursor and may throw; the model reads the character at the position and does not throw.
- Iterators.Iter.HasNext: since the delegate's hasNext does not throw in the model, the RuntimeException wrapping of its ParserException is not exercised.
- Iterators.IteratorImpl.Next: `catch (Exception e)` (IteratorImpl.java:140) does not catch a java.lang.Error, such as a StackOverflowError from deep recursive scanning. Such an Error leaves next() unwrapped and without a feedback entry; the model's failures are Exceptions only, and Errors are not modelled.
- StringExtraction.StringExtractingNodeVisitor.constructor requires a non-negative bufferSize. A negative one makes `new StringBuilder(bufferSize)` (StringExtractingNodeVisitor.java:134 and 148) throw NegativeArraySizeException, which is not modelled; with the size non-negative, resetStrings (line 256) cannot throw it either.
- StringExtraction.StringExtractingNodeVisitor.Valid keeps the buffer at most maxSize characters. This is proved only for a decode that never lengthens text, which is what replacing character references does.
- StringBean, StringBeanForNodeList, HasAttributeRegexFilter, the NodeVisitor and VisitableNodes declarations, the NodeList interface and LexerTest are not part of this model. They are network and bean plumbing, regular-expression matching, declarations only, and a test that only prints.
- PropertyChange notifications and the debugging `toString` methods are left out.
- The constants `ObjectTags.Ids`, `ObjectTags.EndTagEnders`, `MetaTags.Ids` and `Attributes.BreakTags` stand for getIds, getEndTagEnders and the breakTags table; they carry no contract of their own.

## Findings

| source | as written | input that shows it | evidently intended | confidence | as-written member | corrected member |
|---|---|---|---|---|---|---|
| src/main/java/org/htmlparser/dom/HtmlDocumentImpl.java:166 | getTitleText returns `null` whenever the title text is non-empty, and the fallback otherwise | a TITLE whose text is "Home", with outputIfNone "Untitled" | return the title text "Home" | high; not executed | HtmlDocuments.TitleTextAsWrittenExample | HtmlDocuments.HtmlDocumentImpl.GetTitleText |
| src/main/java/org/htmlparser/nodes/TagNode.java:705-708 | isEmptyXmlTag and setEmptyXmlTag read `name.charAt(length - 1)` without checking for an empty name | `new TagNode()`, whose single entry is named "" | isEmptyXmlTag is false, and setEmptyXmlTag(true) appends `" "` and `/` | medium; not executed | Attributes.EmptyNameThrows | TagNodes.TagNode.SetEmptyXmlTag |
