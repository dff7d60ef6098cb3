/** The query/result controller `XmlHelper`: the current document, the query input
    and the two display regions, and the handlers that update them. */
module Controller {
  import opened Messages
  import opened Results

  datatype Option<T> = None | Some(value: T)

  /** A parsed document. The parser always returns one, whatever the text; the model
      keeps the text it was parsed from and looks no further inside it. */
  datatype Doc = Parsed(source: string)

  /** A display region: the text it shows and whether it carries the "invalid" marker. */
  datatype Region = Region(text: string, invalid: bool)

  const Blank := Region("", false)

  /** The document view (`xmlCode`) or the result view (`resultCode`). */
  datatype Target = XmlCode | ResultCode

  /** A file handed over by a drop or the file picker: its declared type and its text. */
  datatype File = File(contentType: string, text: string)

  const XmlContentType := "text/xml"
  const EnterKey := 13

  /** A snapshot of the controller's state. */
  datatype View = View(doc: Option<Doc>, xpathInput: string, xmlCode: Region, resultCode: Region)

  /** An error on the document view has also dropped the document and blanked the result view. */
  predicate ErrorClearsQuery(v: View)
  {
    v.xmlCode.invalid ==> v.doc.None? && v.resultCode == Blank
  }

  /** While a document is loaded, the document view shows the text it was parsed from. */
  predicate ShowsDocument(v: View)
  {
    v.doc.Some? ==> v.xmlCode == Region(v.doc.value.source, false)
  }

  predicate Consistent(v: View)
  {
    ErrorClearsQuery(v) && ShowsDocument(v)
  }

  /** What the result view shows after the engine has been asked to evaluate the
      expression: an invalid-XPath or unknown error when it throws, otherwise the
      formatted result, or the sentinel in place of an empty one. */
  function ResultRegion(o: Outcome): (r: Region)
    ensures r.invalid <==> o.Throws?
    ensures r.text != ""
    ensures o.Throws? ==> r.text == (if o.isDomException then InvalidXPath else Unknown)
    ensures !o.Throws? && Rendered(o) != "" ==> r.text == Rendered(o)
    ensures !o.Throws? && Rendered(o) == "" ==> r.text == NoResults
  {
    match o
    case Throws(isDomException) => Region(if isDomException then InvalidXPath else Unknown, true)
    case _ => Region(WithSentinel(Rendered(o)), false)
  }

  /** The state a search leaves, case by case. With no document loaded, the document view
      reports it and the result view is blank, whether or not an expression was given;
      with a document but no expression, only the result view changes; with both,
      the result view shows what the engine's outcome gives. */
  function SearchResult(v: View, o: Outcome): View
  {
    if v.doc.None? then v.(xmlCode := Region(NoXml, true), resultCode := Blank)
    else if v.xpathInput == "" then v.(resultCode := Region(NoXPath, true))
    else v.(resultCode := ResultRegion(o))
  }

  /** A search keeps the controller consistent. */
  lemma SearchKeepsConsistent(v: View, o: Outcome)
    requires Consistent(v)
    ensures Consistent(SearchResult(v, o))
  {
  }

  /** Repeating a search that gets the same answer from the engine changes nothing more. */
  lemma SearchIdempotent(v: View, o: Outcome)
    ensures SearchResult(SearchResult(v, o), o) == SearchResult(v, o)
  {
  }

  /** From a consistent state, what a search leaves depends only on the document and the
      query input (and the engine's answer): no earlier message or content survives it. */
  lemma SearchForgetsHistory(v1: View, v2: View, o: Outcome)
    requires Consistent(v1) && Consistent(v2)
    requires v1.doc == v2.doc && v1.xpathInput == v2.xpathInput
    ensures SearchResult(v1, o) == SearchResult(v2, o)
  {
  }

  class XmlHelper {
    var doc: Option<Doc>
    var xpathInput: string
    var xmlCode: Region
    var resultCode: Region

    ghost function State(): View
      reads this
    {
      View(doc, xpathInput, xmlCode, resultCode)
    }

    ghost predicate Valid()
      reads this
    {
      Consistent(State())
    }

    constructor ()
      ensures State() == View(None, "", Blank, Blank)
      ensures Valid()
    {
      doc := None;
      xpathInput := "";
      xmlCode := Blank;
      resultCode := Blank;
    }

    /** Shows a value in a region and clears its "invalid" marker. */
    method Display(target: Target, value: string)
      modifies this
      ensures target == XmlCode ==> xmlCode == Region(value, false) && resultCode == old(resultCode)
      ensures target == ResultCode ==> resultCode == Region(value, false) && xmlCode == old(xmlCode)
      ensures doc == old(doc) && xpathInput == old(xpathInput)
    {
      match target
      case XmlCode => xmlCode := Region(value, false);
      case ResultCode => resultCode := Region(value, false);
    }

    /** Marks a region invalid with a message. An error on the document view first
        drops the document and blanks the result view. */
    method Error(target: Target, message: string)
      modifies this
      ensures target == XmlCode ==> doc == None && xmlCode == Region(message, true) && resultCode == Blank
      ensures target == ResultCode ==> resultCode == Region(message, true) && doc == old(doc) && xmlCode == old(xmlCode)
      ensures xpathInput == old(xpathInput)
      ensures target == XmlCode ==> Valid()
      ensures target == ResultCode && old(ShowsDocument(State())) ==> ShowsDocument(State())
    {
      if target == XmlCode {
        doc := None;
        Display(ResultCode, "");
      }
      match target
      case XmlCode => xmlCode := Region(message, true);
      case ResultCode => resultCode := Region(message, true);
    }

    /** Replaces the document by the one parsed from the text, shows the text and
        blanks the result view. */
    method SetXmlDom(xmlString: string)
      modifies this
      ensures doc == Some(Parsed(xmlString))
      ensures xmlCode == Region(xmlString, false) && resultCode == Blank
      ensures xpathInput == old(xpathInput)
      ensures Valid()
    {
      doc := Some(Parsed(xmlString));
      Display(XmlCode, xmlString);
      Display(ResultCode, "");
    }

    /** Accepts a dropped or picked file only when it declares the XML content type;
        its text, once read, becomes the document. When the event carries no file
        (text dragged in, or the picker's selection cleared), reading its type throws
        before anything changes. */
    method DragDrop(file: Option<File>)
      modifies this
      ensures file.None? ==> State() == old(State())
      ensures file.Some? && file.value.contentType != XmlContentType ==>
                doc == None && resultCode == Blank &&
                xmlCode == Region(InvalidContentType(XmlContentType, file.value.contentType), true)
      ensures file.Some? && file.value.contentType == XmlContentType ==>
                doc == Some(Parsed(file.value.text)) && xmlCode == Region(file.value.text, false) && resultCode == Blank
      ensures xpathInput == old(xpathInput)
      ensures file.Some? || old(Valid()) ==> Valid()
    {
      if file.None? {
        return;
      }
      if file.value.contentType != XmlContentType {
        Error(XmlCode, InvalidContentType(XmlContentType, file.value.contentType));
        return;
      }
      SetXmlDom(file.value.text);
    }

    /** Runs the query in the input against the current document; `outcome` is what
        the XPath engine answers for that expression and document, consulted only
        when both are present. The three checks run one after the other, and a later
        one may overwrite what an earlier one wrote. */
    method Search(outcome: Outcome)
      modifies this
      ensures State() == SearchResult(old(State()), outcome)
      ensures old(Valid()) ==> Valid()
    {
      if xpathInput != "" && doc.Some? {
        var result := "";
        match outcome {
          case Throws(isDomException) =>
            if isDomException {
              Error(ResultCode, InvalidXPath);
            } else {
              Error(ResultCode, Unknown);
            }
            return;
          case Nodes(nodes) =>
            result := DrainNodes(nodes);
          case _ =>
            result := ScalarText(outcome);
        }
        result := WithSentinel(result);
        Display(ResultCode, result);
      }
      if xpathInput == "" {
        Error(ResultCode, NoXPath);
      }
      if doc.None? {
        Error(XmlCode, NoXml);
        Display(ResultCode, "");
      }
    }

    /** Searches when the key pressed in the query input is Enter. */
    method SearchKeypress(which: int, outcome: Outcome)
      modifies this
      ensures which == EnterKey ==> State() == SearchResult(old(State()), outcome)
      ensures which != EnterKey ==> State() == old(State())
      ensures old(Valid()) ==> Valid()
    {
      if which == EnterKey {
        Search(outcome);
      }
    }

    /** A preset expression fills the query input and is searched at once. */
    method XpathButtonClick(value: string, outcome: Outcome)
      modifies this
      ensures xpathInput == value
      ensures State() == SearchResult(old(State()).(xpathInput := value), outcome)
      ensures old(Valid()) ==> Valid()
    {
      xpathInput := value;
      Search(outcome);
    }
  }
}
