/** The helper's table of user-visible messages (`errorMessages`). */
module Messages {

  const InvalidXPath := "An invalid XPath 1.0 was used."
  const NoXPath := "No XPath value has been set."
  const NoXml := "No XML file has been loaded."
  const Unknown := "An unknown error occurred."
  const NoResults := "No results found."

  const InvalidContentTypeHead := "Invalid content-type; expected "

  /** The `invalidContentType` template: the expected type, then the type the file declared. */
  function InvalidContentType(expected: string, actual: string): string
  {
    InvalidContentTypeHead + expected + ", " + actual + " returned."
  }

  /** The messages tell the error kinds apart: the five fixed messages are pairwise
      different, and no content-type message equals any of them. */
  lemma MessagesDistinct(expected: string, actual: string)
    ensures InvalidXPath != NoXPath && InvalidXPath != NoXml && InvalidXPath != Unknown && InvalidXPath != NoResults
    ensures NoXPath != NoXml && NoXPath != Unknown && NoXPath != NoResults
    ensures NoXml != Unknown && NoXml != NoResults && Unknown != NoResults
    ensures var m := InvalidContentType(expected, actual);
            m != InvalidXPath && m != NoXPath && m != NoXml && m != Unknown && m != NoResults
  {
  }

  /** The content-type message names the declared type unambiguously: two declared
      types give the same message exactly when they are the same type. */
  lemma {:induction false} InvalidContentTypeNamesActual(expected: string, a1: string, a2: string)
    ensures InvalidContentType(expected, a1) == InvalidContentType(expected, a2) <==> a1 == a2
  {
    var head := InvalidContentTypeHead + expected + ", ";
    var tail := " returned.";
    var m1, m2 := InvalidContentType(expected, a1), InvalidContentType(expected, a2);
    assert m1 == head + a1 + tail;
    assert m2 == head + a2 + tail;
    if m1 == m2 {
      assert |a1| == |a2|;
      assert a1 == m1[|head|..|head| + |a1|];
      assert a2 == m2[|head|..|head| + |a2|];
    }
  }
}
