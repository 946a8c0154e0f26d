/** Chatting with documents: recognising a file or URL that can be ingested,
    and the ingestion itself. The document loaders, the text splitter, the
    vector store and the summariser are not bound in the module, so every
    path that would use one throws. */
module DocChat {
  import opened Values
  import opened Text

  /** What the module asks of its environment: whether `new URL(file)`
      succeeds, what `untildify` makes of a path, and `fs.existsSync`. */
  datatype Env = Env(isValidUrl: string -> bool, untildify: string -> string, fileExists: string -> bool)

  /** The extensions with a loader. */
  predicate HasLoader(file: string)
  {
    EndsWith(file, ".html") || EndsWith(file, ".pdf") || EndsWith(file, ".docx") ||
    EndsWith(file, ".text") || EndsWith(file, ".md")
  }

  /** The loader class `toText` would construct for a supported path. */
  function LoaderFor(file: string): string
  {
    if EndsWith(file, ".html") then "PlaywrightWebBaseLoader"
    else if EndsWith(file, ".pdf") then "PDFLoader"
    else if EndsWith(file, ".docx") then "DocxLoader"
    else "TextLoader"
  }

  /** `DocChat.toText(file, checkOnly)`: with `checkOnly` it answers whether
      the file can be loaded; otherwise it throws, either because the file
      is missing or unsupported or because the loader it names is unbound. */
  function ToText(file: string, checkOnly: bool, env: Env): (r: Result<bool>)
    ensures checkOnly ==> r.Ok?
    ensures !checkOnly ==> r.Err?
    ensures checkOnly ==> (r.value <==>
      env.isValidUrl(file) || (env.fileExists(env.untildify(file)) && HasLoader(env.untildify(file))))
  {
    if env.isValidUrl(file) then
      (if checkOnly then Ok(true) else Err(ReferenceError("PlaywrightWebBaseLoader")))
    else
      var path := env.untildify(file);
      if !env.fileExists(path) then
        (if checkOnly then Ok(false) else Err(Error("Missing file: " + path)))
      else if HasLoader(path) then
        (if checkOnly then Ok(true) else Err(ReferenceError(LoaderFor(path))))
      else if checkOnly then Ok(false)
      else Err(Error("Unsupported file type"))
  }

  /** `DocChat.isSupported(file)`. */
  function IsSupported(file: string, env: Env): (b: bool)
    ensures b <==> env.isValidUrl(file) || (env.fileExists(env.untildify(file)) && HasLoader(env.untildify(file)))
  {
    ToText(file, true, env).value
  }

  /** A missing file is reported by name. */
  lemma MissingFileError(file: string, env: Env)
    requires !env.isValidUrl(file) && !env.fileExists(env.untildify(file))
    ensures ToText(file, false, env) == Err(Error("Missing file: " + env.untildify(file)))
  {
  }

  /** The document state of a session. */
  class DocChat {
    var hasDocs: bool

    /** `new DocChat()`: no documents. */
    constructor ()
      ensures !hasDocs
    {
      hasDocs := false;
    }

    /** `clear()`: forgets the documents. */
    method Clear()
      modifies this
      ensures !hasDocs
    {
      hasDocs := false;
    }

    /** `add(file)`: loading the file throws before anything is stored, so
        ingestion always fails and leaves the state alone. */
    method Add(file: string, env: Env) returns (r: Result<string>)
      ensures r.Err? && r.error == ToText(file, false, env).error
    {
      var docs := ToText(file, false, env);
      r := Err(docs.error);
    }

    /** `query(text)`: reads a vector store that was never created. */
    method Query(query: string) returns (r: Result<seq<string>>)
      ensures r.Err?
    {
      r := Err(TypeError("Cannot read properties of undefined (reading 'similaritySearch')"));
    }
  }
}
