/** The normalisation entry points used by matching: thin wrappers over the parsers'
    normalisers. */
module Normalizer {
  import opened PyStr
  import Parsing

  /** `normalizar_descripcion` */
  function NormalizarDescripcion(descripcion: string): (r: string)
    ensures r == Parsing.NormalizarTexto(descripcion)
  {
    Parsing.NormalizarTexto(descripcion)
  }

  /** `normalizar_ref` */
  function NormalizarRef(referencia: string): (r: string)
    ensures r == Parsing.NormalizarReferencia(referencia)
  {
    Parsing.NormalizarReferencia(referencia)
  }

  /** A normalised reference holds no lower-case ASCII letter, and both normalisers map
      the empty text to itself. */
  lemma NormalizerShape(s: string)
    ensures forall i | 0 <= i < |NormalizarRef(s)| :: !IsLowerAscii(NormalizarRef(s)[i])
    ensures NormalizarDescripcion("") == "" && NormalizarRef("") == ""
  {
  }
}
