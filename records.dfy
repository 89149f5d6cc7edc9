/** The values the correction page keeps in its session: correction records,
    the correction service's first response, the re-predict request body and
    the three pending text fields of the "add correction" form. */
module Records {

  datatype Option<T> = None | Some(value: T)

  /** Raw bytes of an uploaded image file. */
  type Bytes = seq<bv8>

  /** One identified mistake: the text as written, its correction and its
      category (the `type` key of the service's JSON). */
  datatype Correction = Correction(original: string, corrected: string, category: string)

  /** The `json_output` object of a predict response. */
  datatype JsonOutput = JsonOutput(correctedText: string, mistakes: seq<Correction>)

  /** A predict response: the rendered corrected image, the processed original
      image (kept for re-submission) and the text result, images in base64. */
  datatype Response = Response(imageBase64: string, imageProcBase64: string, jsonOutput: JsonOutput)

  /** The JSON body posted to the re-predict operation. */
  datatype Payload = Payload(jsonOutput: JsonOutput, imageProcBase64: string)

  /** The `correction_inputs` dictionary of the session. */
  datatype Inputs = Inputs(mistake: string, correction: string, mistakeType: string)

  const EmptyInputs: Inputs := Inputs("", "", "")

  /** The seven category names the form suggests to the user. */
  const Categories: seq<string> :=
    ["Spelling", "Conjugation", "Agreement", "Syntax", "Article", "Punctuation", "Lexical"]

  /** Whether a category typed by the user is one of the suggested names; the
      page only warns when it is not. */
  function IsKnownCategory(t: string): (b: bool)
    ensures b <==> exists i :: 0 <= i < |Categories| && Categories[i] == t
    ensures b ==> t != ""
  {
    t in Categories
  }

  /** Two responses agree on everything the page never edits: both images and
      the corrected text. Only the mistakes list may differ. */
  predicate SameOrigin(a: Response, b: Response)
  {
    a.imageBase64 == b.imageBase64 &&
    a.imageProcBase64 == b.imageProcBase64 &&
    a.jsonOutput.correctedText == b.jsonOutput.correctedText
  }

  /** The response with its mistakes list replaced. */
  function WithMistakes(r: Response, ms: seq<Correction>): (r': Response)
    ensures SameOrigin(r', r) && r'.jsonOutput.mistakes == ms
  {
    r.(jsonOutput := r.jsonOutput.(mistakes := ms))
  }
}
