/** The rows the views hold, as the row store returns them, the session and the picked file, and
    what both modals share: the missing-session message, a file's extension and JavaScript's `||`
    defaults. */
module Entities {
  import opened Wrappers
  import opened PriceMask
  import opened Text

  /** A row of `loja_produto`. Text columns that may be null are `Option<string>`. */
  datatype Product = Product(
    id: nat,
    nome: string,
    descricao: Option<string>,
    preco: Price,
    imagem: Option<string>,
    userId: string)

  /** A row of `loja_perfil`, one per user. */
  datatype Profile = Profile(
    userId: string,
    email: Option<string>,
    nome: Option<string>,
    sexo: Option<string>,
    pais: Option<string>,
    estado: Option<string>,
    fotoPerfil: Option<string>)

  /** The signed-in session: only the user's id is read. */
  datatype Session = Session(userId: string)

  /** The message thrown when there is no session. */
  const NotAuthenticated := "Usuário não autenticado"

  /** A file picked in a file input: only its name is read. */
  datatype PickedFile = PickedFile(name: string)

  /** `name.split(".").pop()`: the text after the name's last '.', or the whole name when it
      has none. */
  function FileExtension(fileName: string): (ext: string)
    ensures '.' !in ext
    ensures |ext| <= |fileName| && ext == fileName[|fileName| - |ext|..]
  {
    AfterLastIsLastSegment(fileName, '.');
    AfterLast(fileName, '.')
  }

  /** The extension is what follows the name's last '.', or the whole name when there is no
      '.': a shorter extension is always preceded by a '.'. */
  lemma FileExtensionFollowsLastDot(fileName: string)
    ensures var ext := FileExtension(fileName);
      |ext| == |fileName| - 1 - LastIndexOf(fileName, '.') &&
      (|ext| < |fileName| ==> fileName[|fileName| - |ext| - 1] == '.')
  {
  }

  /** A nullable text is truthy when present and not empty. */
  predicate Truthy(s: Option<string>) {
    s.Some? && s.value != ""
  }

  /** `s || ""`. */
  function OrEmpty(s: Option<string>): string {
    if Truthy(s) then s.value else ""
  }

  /** `s || null`. */
  function OrNull(s: Option<string>): Option<string> {
    if Truthy(s) then s else None
  }
}
