/**
 * The column widths the models declare for the text fields of gyms, trainers and workout lines,
 * and how the trainer profile the post-save handler generates measures up to them.
 */
module Limits {
  import opened Wrappers
  import opened Text
  import opened Domain
  import Signals

  const NomeFantasiaMax: nat := 100
  const CnpjMax: nat := 18
  const EnderecoMax: nat := 255
  const TelefoneMax: nat := 15
  const CrefMax: nat := 20
  const EspecialidadeMax: nat := 100
  const RepeticoesMax: nat := 20

  /** Whether an optional text fits a column of width `max`. */
  predicate OptionalFits(x: Option<string>, max: nat) {
    x.None? || |x.value| <= max
  }

  /** A gym row within the widths of `nome_fantasia`, `cnpj`, `endereco` and `telefone`. */
  predicate GymFits(g: Gym) {
    |g.nomeFantasia| <= NomeFantasiaMax && |g.cnpj| <= CnpjMax
    && |g.endereco| <= EnderecoMax && |g.telefone| <= TelefoneMax
  }

  /** A trainer row within the widths of `cref` and `especialidade`. */
  predicate TrainerFits(t: Trainer) {
    |t.cref| <= CrefMax && OptionalFits(t.especialidade, EspecialidadeMax)
  }

  /** A workout line within the width of `repeticoes`. */
  predicate ItemFits(i: WorkoutItem) {
    |i.repeticoes| <= RepeticoesMax
  }

  /** The length of the generated CREF: "CREF-" and at least six digits. */
  lemma CrefLength(id: Id)
    ensures |Signals.DefaultCref(id)| == 5 + (if |NatToString(id)| >= 6 then |NatToString(id)| else 6)
  {
  }

  /**
   * The profile the handler generates for a new trainer fits its columns exactly when the user id
   * has at most fifteen digits: "CREF-" and the padded id overflow the 20 characters of `cref` from
   * id 10^15 on.
   */
  lemma GeneratedTrainerFits(id: Id)
    ensures TrainerFits(Trainer(Signals.DefaultCref(id), Some(Signals.DefaultEspecialidade))) <==> id < Pow10(15)
  {
    CrefLength(id);
    if id < Pow10(15) {
      ShortRendering(id, 15);
    } else {
      LongRendering(id, 15);
    }
  }
}
