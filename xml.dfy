/** Parsed descriptor documents, the test cases found in them, and the ways
    a run of the collector can fail. */
module Xml {

  /** An element: its tag, its attributes and its child elements in document
      order. Text and tail whitespace are not part of the model. */
  datatype Node = Node(tag: string, attrib: map<string, string>, children: seq<Node>)

  /** The descriptor files a run can parse, keyed by the path the collector
      computes for them. A path that is absent stands for a file that is
      missing or that the XML parser rejects. */
  type Store = map<string, Node>

  /** One `include` leaf the collector met: the enclosing test, the enclosing
      class, and the leaf's own name. */
  datatype TestCase = TestCase(test: string, cls: string, name: string)

  /** The exceptions that end a run. */
  datatype Error =
    | Unreadable(path: string)                 // the parser cannot open or parse the file
    | MissingAttribute(tag: string, key: string) // `attrib[key]` on an element without it
    | MissingFirstChild(tag: string)           // `element[0]` on an element without children
    | RecursionLimit(path: string)             // suite files nested deeper than the interpreter allows
    | OutputNotOpenable(path: string)          // opening the output fails other than with "not found"

  datatype Result<T> = Ok(value: T) | Err(error: Error)

  datatype Outcome = Pass | Fail(error: Error)
}
