// Models the petition lifecycle of app/api/routes/peticoes.py over the
// `peticoes` table: creation as a draft, background generation, human
// approval or rejection, and deletion. The table is a map from id to row.

module Petitions {
  import opened Wrappers

  /** `StatusPeticao`. */
  datatype Status = Rascunho | Gerada | Aprovada | Enviada

  /** `TipoPeticao`. */
  datatype PetitionType = Inicial | Replica | Recurso | Quesitos

  /** One row of the table; the form data is kept as given. */
  datatype Petition = Petition(
    titulo: string,
    tipo: PetitionType,
    areaJuridica: string,
    status: Status,
    dadosFormulario: map<string, string>,
    textoGerado: Option<string>,
    pdfPath: Option<string>,
    jurisprudencia: Option<seq<string>>,
    legislacao: Option<seq<string>>,
    promptUtilizado: Option<string>,
    aprovadoPorHumano: bool,
    observacoes: Option<string>,
    approvedAt: Option<int>)

  /** What the AI and PDF services produced for a petition: the text, the
      file path and the optional metadata entries of the answer, or an
      exception raised by either service. */
  datatype Generation =
    | Generated(texto: string, pdfPath: string, jurisprudencia: Option<seq<string>>,
                legislacao: Option<seq<string>>, prompt: Option<string>)
    | GenerationFailed

  /** The HTTP errors the handlers raise; an uncaught exception in a handler
      answers 500. */
  datatype HttpError = NotFound404 | BadRequest400 | InternalError500

  /** A fresh row, as `criar_peticao` builds it (column defaults applied). */
  function Draft(titulo: string, tipo: PetitionType, area: string, dados: map<string, string>): (p: Petition)
    ensures p.status == Rascunho && !p.aprovadoPorHumano
    ensures p.textoGerado == None && p.pdfPath == None && p.approvedAt == None
    ensures p.titulo == titulo && p.tipo == tipo && p.areaJuridica == area && p.dadosFormulario == dados
  {
    Petition(titulo, tipo, area, Rascunho, dados, None, None, None, None, None, false, None, None)
  }

  /** The row after `gerar_peticao_background`: on success the text, the PDF
      path and the metadata (defaulting to [], [] and "") are stored and the
      status is GERADA; on failure only the status goes back to RASCUNHO. */
  function AfterGeneration(p: Petition, g: Generation): (q: Petition)
    ensures g.GenerationFailed? ==> q == p.(status := Rascunho)
    ensures g.Generated? ==>
      && q.status == Gerada
      && q.textoGerado == Some(g.texto) && q.pdfPath == Some(g.pdfPath)
      && q.jurisprudencia == Some(g.jurisprudencia.GetOr([]))
      && q.legislacao == Some(g.legislacao.GetOr([]))
      && q.promptUtilizado == Some(g.prompt.GetOr(""))
      && q.aprovadoPorHumano == p.aprovadoPorHumano && q.observacoes == p.observacoes
      && q.approvedAt == p.approvedAt && q.titulo == p.titulo && q.dadosFormulario == p.dadosFormulario
    ensures g.Generated? ==>
      q.(textoGerado := p.textoGerado, pdfPath := p.pdfPath, jurisprudencia := p.jurisprudencia,
         legislacao := p.legislacao, promptUtilizado := p.promptUtilizado, status := p.status) == p
  {
    match g
    case GenerationFailed => p.(status := Rascunho)
    case Generated(texto, pdf, jur, leg, prompt) =>
      p.(textoGerado := Some(texto), pdfPath := Some(pdf),
         jurisprudencia := Some(jur.GetOr([])), legislacao := Some(leg.GetOr([])),
         promptUtilizado := Some(prompt.GetOr("")), status := Gerada)
  }

  /** The row after a human decision in `aprovar_peticao`. */
  function AfterDecision(p: Petition, aprovado: bool, observacoes: Option<string>, now: int): (q: Petition)
    ensures q.aprovadoPorHumano == aprovado && q.observacoes == observacoes
    ensures aprovado ==> q.status == Aprovada && q.approvedAt == Some(now)
    ensures !aprovado ==> q.status == Rascunho && q.approvedAt == None
    ensures q.textoGerado == p.textoGerado && q.pdfPath == p.pdfPath && q.titulo == p.titulo
    ensures q.dadosFormulario == p.dadosFormulario && q.jurisprudencia == p.jurisprudencia
    ensures q.(aprovadoPorHumano := p.aprovadoPorHumano, observacoes := p.observacoes,
               status := p.status, approvedAt := p.approvedAt) == p
  {
    p.(aprovadoPorHumano := aprovado, observacoes := observacoes,
       status := if aprovado then Aprovada else Rascunho,
       approvedAt := if aprovado then Some(now) else None)
  }

  /** A decision on a GERADA row as `aprovar_peticao` is written: for an
      approval, line 160 evaluates `db.func.now()`, and the database session
      has no `func` attribute, so the handler raises before `db.commit()`,
      the request answers 500 and nothing is stored. A rejection takes the
      other branch of that line and is recorded. */
  function DecisionAsWritten(p: Petition, aprovado: bool, observacoes: Option<string>, now: int)
    : (r: Result<Petition, HttpError>)
    ensures r.Failure? <==> aprovado
    ensures r.Failure? ==> r.error == InternalError500
    ensures r.Success? ==> r.value.status == Rascunho && !r.value.aprovadoPorHumano && r.value.approvedAt == None
    ensures r.Success? ==> r.value.observacoes == observacoes && r.value.textoGerado == p.textoGerado
    ensures r.Success? ==> r.value == AfterDecision(p, false, observacoes, now)
  {
    if aprovado then Failure(InternalError500)
    else Success(AfterDecision(p, false, observacoes, now))
  }

  /** As written, the approval the handler intends (`AfterDecision`, which
      stores APROVADA and the time) is never reached: every approval fails,
      and no decision that succeeds leaves a row APROVADA. */
  lemma ApprovalAsWrittenFails(p: Petition, observacoes: Option<string>, now: int)
    ensures AfterDecision(p, true, observacoes, now).status == Aprovada
    ensures DecisionAsWritten(p, true, observacoes, now) == Failure(InternalError500)
    ensures forall aprovado :: DecisionAsWritten(p, aprovado, observacoes, now).Success? ==>
              DecisionAsWritten(p, aprovado, observacoes, now).value.status != Aprovada
  {
  }

  /** What every row reachable through the handlers satisfies: an approval
      date exactly when a human approved it, an approved row always has one,
      a generated or approved row has its text, and no handler ever sets
      ENVIADA. */
  predicate WellFormed(p: Petition) {
    && (p.approvedAt.Some? <==> p.aprovadoPorHumano)
    && (p.status == Aprovada ==> p.aprovadoPorHumano)
    && (p.status in {Gerada, Aprovada} ==> p.textoGerado.Some?)
    && p.status != Enviada
  }

  lemma DraftIsWellFormed(titulo: string, tipo: PetitionType, area: string, dados: map<string, string>)
    ensures WellFormed(Draft(titulo, tipo, area, dados))
  {
  }

  /** Generation keeps a row well formed, whatever the services return. */
  lemma GenerationKeepsWellFormed(p: Petition, g: Generation)
    requires WellFormed(p)
    ensures WellFormed(AfterGeneration(p, g))
  {
  }

  /** A decision on a generated row keeps it well formed; an approval is only
      ever recorded on top of a generated text. */
  lemma DecisionKeepsWellFormed(p: Petition, aprovado: bool, observacoes: Option<string>, now: int)
    requires WellFormed(p) && p.status == Gerada
    ensures WellFormed(AfterDecision(p, aprovado, observacoes, now))
    ensures AfterDecision(p, aprovado, observacoes, now).status == Aprovada ==>
              AfterDecision(p, aprovado, observacoes, now).textoGerado.Some?
  {
  }

  /** The `peticoes` table, with the next id the database sequence hands out. */
  class PetitionStore {
    var petitions: map<int, Petition>
    var nextId: int

    /** Ids are positive and below the next one to be handed out, and every
        row is well formed. */
    predicate Valid()
      reads this
    {
      && nextId >= 1
      && (forall id :: id in petitions ==> 1 <= id < nextId)
      && (forall id :: id in petitions ==> WellFormed(petitions[id]))
    }

    constructor ()
      ensures Valid() && petitions == map[] && nextId == 1
    {
      petitions := map[];
      nextId := 1;
    }

    /** `criar_peticao`: stores a new draft under a fresh id. The background
        generation it schedules is `Generate` below. */
    method Create(titulo: string, tipo: PetitionType, area: string, dados: map<string, string>)
      returns (id: int)
      requires Valid()
      modifies this
      ensures Valid()
      ensures id !in old(petitions)
      ensures petitions == old(petitions)[id := Draft(titulo, tipo, area, dados)]
      ensures petitions[id].status == Rascunho
    {
      id := nextId;
      DraftIsWellFormed(titulo, tipo, area, dados);
      petitions := petitions[id := Draft(titulo, tipo, area, dados)];
      nextId := nextId + 1;
    }

    /** `gerar_peticao_background`: a missing id changes nothing; otherwise the
        row takes the services' outcome, and no other row changes. */
    method Generate(id: int, outcome: Generation)
      requires Valid()
      modifies this
      ensures Valid()
      ensures nextId == old(nextId)
      ensures id !in old(petitions) ==> petitions == old(petitions)
      ensures id in old(petitions) ==> petitions == old(petitions)[id := AfterGeneration(old(petitions)[id], outcome)]
      ensures id in old(petitions) && outcome.Generated? ==> petitions[id].status == Gerada
      ensures id in old(petitions) && outcome.GenerationFailed? ==> petitions[id].status == Rascunho
    {
      if id !in petitions {
        return;
      }
      GenerationKeepsWellFormed(petitions[id], outcome);
      petitions := petitions[id := AfterGeneration(petitions[id], outcome)];
    }

    /** `aprovar_peticao` as intended, with the approval time taken from the
        database clock (`func.now()`, as the model's own columns use it):
        404 for an unknown id, 400 (and no change) unless the row is GERADA;
        otherwise the decision is recorded and the new status answered.
        `ApproveAsWritten` is the handler as line 160 is written. */
    method Approve(id: int, aprovado: bool, observacoes: Option<string>, now: int)
      returns (r: Result<Status, HttpError>)
      requires Valid()
      modifies this
      ensures Valid()
      ensures nextId == old(nextId)
      ensures id !in old(petitions) ==> r == Failure(NotFound404) && petitions == old(petitions)
      ensures id in old(petitions) && old(petitions)[id].status != Gerada ==>
                r == Failure(BadRequest400) && petitions == old(petitions)
      ensures id in old(petitions) && old(petitions)[id].status == Gerada ==>
                && petitions == old(petitions)[id := AfterDecision(old(petitions)[id], aprovado, observacoes, now)]
                && r == Success(if aprovado then Aprovada else Rascunho)
      ensures r.Success? <==> id in old(petitions) && old(petitions)[id].status == Gerada
    {
      if id !in petitions {
        return Failure(NotFound404);
      }
      if petitions[id].status != Gerada {
        return Failure(BadRequest400);
      }
      DecisionKeepsWellFormed(petitions[id], aprovado, observacoes, now);
      var q := AfterDecision(petitions[id], aprovado, observacoes, now);
      petitions := petitions[id := q];
      r := Success(q.status);
    }

    /** `aprovar_peticao` as written (see `DecisionAsWritten`): an approval of
        a GERADA row answers 500 and changes nothing, so no row ever becomes
        APROVADA; a rejection is recorded as in `Approve`. */
    method ApproveAsWritten(id: int, aprovado: bool, observacoes: Option<string>, now: int)
      returns (r: Result<Status, HttpError>)
      requires Valid()
      modifies this
      ensures Valid()
      ensures nextId == old(nextId)
      ensures id !in old(petitions) ==> r == Failure(NotFound404) && petitions == old(petitions)
      ensures id in old(petitions) && old(petitions)[id].status != Gerada ==>
                r == Failure(BadRequest400) && petitions == old(petitions)
      ensures id in old(petitions) && old(petitions)[id].status == Gerada && aprovado ==>
                r == Failure(InternalError500) && petitions == old(petitions)
      ensures id in old(petitions) && old(petitions)[id].status == Gerada && !aprovado ==>
                && petitions == old(petitions)[id := AfterDecision(old(petitions)[id], false, observacoes, now)]
                && r == Success(Rascunho)
      ensures forall k :: k in petitions && petitions[k].status == Aprovada ==>
                k in old(petitions) && old(petitions)[k].status == Aprovada
    {
      if id !in petitions {
        return Failure(NotFound404);
      }
      if petitions[id].status != Gerada {
        return Failure(BadRequest400);
      }
      var decided := DecisionAsWritten(petitions[id], aprovado, observacoes, now);
      if decided.Failure? {
        return Failure(decided.error);
      }
      DecisionKeepsWellFormed(petitions[id], false, observacoes, now);
      petitions := petitions[id := decided.value];
      r := Success(decided.value.status);
    }

    /** `deletar_peticao`: 404 for an unknown id; otherwise the row is removed
        and every other row stays as it was. */
    method Delete(id: int) returns (r: Result<string, HttpError>)
      requires Valid()
      modifies this
      ensures Valid()
      ensures nextId == old(nextId)
      ensures id !in old(petitions) ==> r == Failure(NotFound404) && petitions == old(petitions)
      ensures id in old(petitions) ==> r == Success("Petição deletada com sucesso")
      ensures id in old(petitions) ==> petitions == old(petitions) - {id}
      ensures forall other :: other != id && other in old(petitions) ==>
                other in petitions && petitions[other] == old(petitions)[other]
    {
      if id !in petitions {
        return Failure(NotFound404);
      }
      petitions := petitions - {id};
      r := Success("Petição deletada com sucesso");
    }
  }
}
