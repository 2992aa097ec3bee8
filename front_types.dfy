/** The records the front end works with (front/src/types/index.ts). Dates
    are the `yyyy-mm-dd` strings the views hold. */
module FrontTypes {
  datatype EPI = EPI(id: string, nome: string, validade: string, ca: string, tipo: string, uso: string,
                     fabricante: string, entrega: string)

  datatype Funcionario = Funcionario(id: string, nome: string, cpf: string, cargo: string, setor: string)

  /** An assignment of an equipment item to an employee. */
  datatype EPIAtribuicao = EPIAtribuicao(id: string, epiId: string, funcionarioId: string, dataEntrega: string,
                                         validade: string)

  function HasEpiId(id: string): EPI -> bool
  {
    (e: EPI) => e.id == id
  }

  function HasFuncionarioId(id: string): Funcionario -> bool
  {
    (f: Funcionario) => f.id == id
  }

  function OfEpi(epiId: string): EPIAtribuicao -> bool
  {
    (at: EPIAtribuicao) => at.epiId == epiId
  }

  function OfFuncionario(funcionarioId: string): EPIAtribuicao -> bool
  {
    (at: EPIAtribuicao) => at.funcionarioId == funcionarioId
  }
}
