/** The records the front end passes around (types.ts). */
module Types {

  datatype Option<T> = None | Some(value: T)

  /** The content type a prompt targets. */
  datatype Modality = Text | Image | Video | Audio | Code

  /** The literal string each modality is written as. */
  function ModalityName(m: Modality): string
  {
    match m
    case Text => "text"
    case Image => "image"
    case Video => "video"
    case Audio => "audio"
    case Code => "code"
  }

  /** The library's categories, in declaration order. */
  datatype Category = Surreal | Tech | Lifestyle | Business | Creative | Professional

  /** The string value of each `Category` member. */
  function CategoryName(c: Category): string
  {
    match c
    case Surreal => "Surreal"
    case Tech => "Tech"
    case Lifestyle => "Lifestyle"
    case Business => "Business"
    case Creative => "Creative"
    case Professional => "Professional"
  }

  /** The position of each `Category` member in the enum's declaration. */
  function CategoryIndex(c: Category): nat
  {
    match c
    case Surreal => 0
    case Tech => 1
    case Lifestyle => 2
    case Business => 3
    case Creative => 4
    case Professional => 5
  }

  /** A parameter record (`Record<string, string>`) as its entries in
      insertion order; a well-formed record has pairwise distinct keys. */
  type Params = seq<(string, string)>

  /** A library entry. The catalogue entries also carry free-form tags. */
  datatype PromptTemplate = PromptTemplate(
    id: string,
    title: string,
    description: string,
    category: string,
    modality: Modality,
    seed: string,
    tags: seq<string>,
    parameters: Params)

  /** A finished generation, as kept in history and bookmarks. */
  datatype GeneratedPrompt = GeneratedPrompt(
    id: string,
    timestamp: int,
    originalSeed: string,
    enhancedPrompt: string,
    modality: Modality,
    isBookmarked: bool)

  /** The composer's in-progress request. */
  datatype WorkspaceState = WorkspaceState(
    modality: Modality,
    seed: string,
    params: Params,
    isThinking: bool)
}
