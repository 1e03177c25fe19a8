/**
 * The part of the registry record that the modelled formatters read.  The
 * component treats every nested object as possibly absent (optional chaining),
 * so each such field is an Option.  Fields the model never reads are omitted.
 */
module CnpjRecord {
  import opened Wrappers

  /** Tax-regime flags of the record (`simples`): "Sim" or "Não". */
  datatype Simples = Simples(simples: string, mei: string)

  /** The establishment (`estabelecimento`): address and contact fields. */
  datatype Estabelecimento = Estabelecimento(
    cep: Option<string>,
    ddd1: Option<string>,
    telefone1: Option<string>)

  /** The record returned by the registry (`CnpjData`). */
  datatype CnpjData = CnpjData(
    simples: Option<Simples>,
    estabelecimento: Option<Estabelecimento>)
}
