# Find in XML: the query/result controller

This project models the controller class `XmlHelper` of a small browser tool that loads an XML
document and queries it with XPath 1.0 expressions. The controller holds one current parsed document
and a query input. It also drives two display regions: the document view (`xmlCode`) and the result
view (`resultCode`). Each region shows a text and may carry an "invalid" marker.

- `messages.dfy`, module `Messages`: the `errorMessages` table. It proves that the messages tell the
  error kinds apart, and that a content-type message names the declared type unambiguously.
- `results.dfy`, module `Results`: what `search` does with a successful evaluation. It switches on
  the result type and drains the node iterator (`DrainNodes`, a loop proved against `Serialize`). An
  empty formatted result is replaced by "No results found.".
- `controller.dfy`, module `Controller`: the class `XmlHelper`. It has fields `doc`, `xpathInput`,
  `xmlCode` and `resultCode`, and the methods `Display`, `Error`, `SetXmlDom`, `DragDrop`, `Search`,
  `SearchKeypress` and `XpathButtonClick`.

`Search` follows the source's three independent checks, in order, so a later check may overwrite what
an earlier one wrote. It is proved against `SearchResult`, a reference definition written case by case:
- With no document loaded, the document view ends invalid with "No XML file has been loaded.", the
  result view ends blank and valid, and the document stays absent. This holds whether or not an
  expression was given: the "No XPath value has been set." message written by the second check is
  overwritten by the third.
- With a document but an empty expression, only the result view changes. It becomes invalid with the
  no-XPath message.
- With both present, the result view shows `ResultRegion(outcome)`.

Every handler keeps the class invariant `Valid()`. It has two parts:
- an invalid document view means there is no document and the result view is blank and valid;
- a loaded document is shown, valid, in the document view.

The XPath engine is not modelled. Its answer for the current expression and document is an input,
`Outcome`: an exception (a DOMException or another one), a number already rendered as text, a
string, a boolean, or the sequence of nodes the iterator yields. The parser always returns a document
and the source never inspects it, so a document is modelled as `Parsed(source)`.

A drop whose declared type is not `text/xml` is an error on the document view, and that error clears
the current document (xml-helper.js:79-80 with 196-197). So a rejected drop clears the document that was loaded before.

The contents of the query input are the field `xpathInput`. Typing into the input is plain
assignment to that field. `XpathButtonClick` sets it from a preset button.

## Model

| member | source | states |
|---|---|---|
| `Messages.MessagesDistinct` | scripts/classes/xml-helper.js:26-34 | the five fixed messages are pairwise different, and no content-type message equals any of them, so an invalid region's text tells which error it is |
| `Messages.InvalidContentTypeNamesActual` | scripts/classes/xml-helper.js:28 | two declared types give the same content-type message exactly when they are equal |
| `Results.SerializeAppend` | scripts/classes/xml-helper.js:159-164 | formatting the nodes of two consecutive stretches of the iterator gives the two formatted texts concatenated with no separator |
| `Results.SerializeAt` | scripts/classes/xml-helper.js:159-164 | each node's text (markup, or text content when it has no markup) appears after the texts of all earlier nodes and before those of all later ones |
| `Results.SerializeEmpty` | scripts/classes/xml-helper.js:159-164 | the node text is empty exactly when every node contributes the empty string, including when there is no node at all |
| `Results.DrainNodes` | scripts/classes/xml-helper.js:159-164 | the loop that drains the iterator and appends each node's text computes exactly `Serialize` of the node sequence |
| `Results.ScalarText` | scripts/classes/xml-helper.js:145-155 | a number result is its non-empty rendering, a string result passes through unchanged, and a boolean becomes "true" when true and "false" when false |
| `Results.WithSentinel` | scripts/classes/xml-helper.js:167 | the shown text is never empty: an empty result becomes exactly "No results found." and a non-empty one is never replaced |
| `Results.NodeResultShown` | scripts/classes/xml-helper.js:159-167 | a node result shows the sentinel when no node contributes text, and its own non-empty text as soon as one node does |
| `Controller.ResultRegion` | scripts/classes/xml-helper.js:133-169 | the result view is invalid exactly when evaluation throws; a DOMException gives "An invalid XPath 1.0 was used." and any other exception "An unknown error occurred."; otherwise it shows the formatted result, or the sentinel when that is empty; it is never blank |
| `Controller.SearchKeepsConsistent` | scripts/classes/xml-helper.js:130-181 | whatever the inputs and the engine's answer, a search from a consistent state leaves a consistent state |
| `Controller.SearchIdempotent` | scripts/classes/xml-helper.js:130-181 | searching again with the same engine answer changes nothing |
| `Controller.SearchForgetsHistory` | scripts/classes/xml-helper.js:130-181 | from consistent states, the state a search leaves depends only on the document, the query input and the engine's answer, so no earlier message or content survives a search |
| `Controller.XmlHelper.constructor` | scripts/classes/xml-helper.js:11 | the helper starts with no document, an empty input and both regions blank and valid, and it satisfies the invariant |
| `Controller.XmlHelper.Display` | scripts/classes/xml-helper.js:189-193 | the target region shows the value and loses its invalid marker; nothing else changes |
| `Controller.XmlHelper.Error` | scripts/classes/xml-helper.js:195-203 | the target region becomes invalid with exactly the message; on the document view the document also becomes absent and the result view blank and valid, and the invariant then holds; on the result view nothing else changes |
| `Controller.XmlHelper.SetXmlDom` | scripts/classes/xml-helper.js:183-187 | a document parsed from the text is current, the document view shows the text as valid content, and the result view is blank and valid; the invariant holds |
| `Controller.XmlHelper.DragDrop` | scripts/classes/xml-helper.js:74-90 | an event without a file throws at the type check and changes nothing; a file whose declared type is not "text/xml" gives "Invalid content-type; expected text/xml, <type> returned." on the document view and clears the document and the result view; an XML file becomes the current document as `SetXmlDom` does; the invariant holds whenever a file was given, and is kept otherwise |
| `Controller.XmlHelper.Search` | scripts/classes/xml-helper.js:130-181 | the three checks run in sequence and reach the case-by-case state of `SearchResult`: no document gives the no-XML error with a blank result whatever the input; an empty input with a document gives the no-XPath error on the result view only; otherwise the result view is `ResultRegion`; the invariant is kept |
| `Controller.XmlHelper.SearchKeypress` | scripts/classes/xml-helper.js:124-128 | key code 13 searches exactly as `Search`; any other key changes nothing |
| `Controller.XmlHelper.XpathButtonClick` | scripts/classes/xml-helper.js:119-122 | the input takes the button's value, then the search runs on it; the invariant is kept |

## Left out

- The constructor's element lookups and event-listener wiring, `dragClick`, and the drag styling in `dragOver` and `dragDone` (lines 6-72, 93-95) are user-interface plumbing. The initial texts of the two regions and the initial value of the query input come from the page, which is not part of this model, so the model starts them all empty.
- `exampleButtonClick` (lines 97-117) is a fetch client built on promises. It is not modelled, and neither is the `fetchError` message (line 27) that only it uses.
- The asynchronous `FileReader` (lines 84-90) is not modelled. `DragDrop` calls `SetXmlDom` with the file's text directly. Overlapping loads, where the last completion wins, are therefore not modelled.
- `DragDrop` takes the first file of the event, or none. Whether it came from the drop's `dataTransfer` or from the file picker (line 78) makes no difference to the rest of the handler. The TypeError thrown when there is no file is modelled only as a return that changes nothing; the uncaught exception itself is not modelled.
- The DOM parser (line 184) is not modelled. A document is `Parsed(source)`, and no parser-error inspection is done, as in the source.
- The XPath 1.0 engine (line 134) is not modelled. Its answer is the `Outcome` input.
- Number formatting (`numberValue.toString()`, line 148) is not modelled. The number arrives as its non-empty rendered text.
- `vkbeautify.xml` and `hljs.highlightBlock` (lines 191-192) are not modelled. A region shows the raw value passed to `display`.
- A node whose `textContent` is `null` and which has no markup is not modelled. In JavaScript it would append the text "null"; here a node always carries a string.
