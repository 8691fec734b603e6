/** The `CrawlerTjal` class of crawlers/crawler_tjal.py, a first-instance
    crawler for the Alagoas court (TJAL).

    Its `remove_blank_space`, `remove_special_characters` and `extract_partes`
    are copies of crawler_jus/util.py and crawler_jus/crawler.py and are the
    same members here (`Util.RemoveBlankSpace`, `Util.RemoveSpecialCharacters`,
    `Crawler.ExtractPartes`). What differs: `extract_movimentos` turns an
    error while reading the rows into `None`, and the request method requires
    every header field, prints what it extracts and returns nothing. */
module CrawlerTjal {
  import opened Wrappers
  import opened Util
  import opened Document
  import opened Retry
  import Crawler

  const URL_CONSULTA: string := "https://www2.tjal.jus.br/cpopg/show.do?processo.numero="

  // ---------------------------------------------------------------------------
  // extract_movimentos
  // ---------------------------------------------------------------------------

  /** What this class's `extract_movimentos(pagina)` returns or raises. */
  function MovementsOfPage(pagina: Page): Result<Option<seq<Crawler.Movement>>, Error> {
    match pagina.movementHeading
    case None => Success(Some([]))
    case Some(Detached) => Success(Some([]))
    case Some(InDiv(table)) =>
      var text :- Found(table);
      if RemoveBlankSpace(text) == Crawler.SEM_MOVIMENTOS then Success(None)
      else
        match pagina.movementRows
        case None => Success(None)
        case Some(rows) =>
          match Crawler.MovementsOf(rows)
          case Success(movimentos) => Success(Some(movimentos))
          case Failure(_) => Success(None)
  }

  /** crawlers/crawler_tjal.py `extract_movimentos`. */
  method ExtractMovimentos(pagina: Page) returns (r: Result<Option<seq<Crawler.Movement>>, Error>)
    ensures r == MovementsOfPage(pagina)
  {
    if pagina.movementHeading.None? || pagina.movementHeading.value.Detached? {
      return Success(Some([]));
    }
    var table := pagina.movementHeading.value.table;
    if table.None? {
      return Failure(MissingElement);
    }
    if RemoveBlankSpace(table.value) == Crawler.SEM_MOVIMENTOS {
      return Success(None);
    }
    if pagina.movementRows.None? {
      return Success(None);
    }
    var rows := pagina.movementRows.value;
    var movimentos: seq<Crawler.Movement> := [];
    var i := 0;
    assert rows[i..] == rows;
    PrependNil(Crawler.MovementsOf(rows));
    while i < |rows|
      invariant 0 <= i <= |rows|
      invariant Crawler.MovementsOf(rows) == Prepend(movimentos, Crawler.MovementsOf(rows[i..]))
    {
      Crawler.MovementsOfStep(rows, i);
      var m := Crawler.MovementOf(rows[i]);
      if m.Failure? {
        return Success(None);
      }
      PrependPrepend(movimentos, [m.value], Crawler.MovementsOf(rows[i + 1..]));
      movimentos := movimentos + [m.value];
      i := i + 1;
    }
    assert rows[i..] == [];
    assert movimentos + [] == movimentos;
    return Success(Some(movimentos));
  }

  /** The only error left is a heading inside a `div` with no table after it,
      which is read outside the `try` block. */
  lemma MovementsFailOnlyWithoutTable(pagina: Page)
    ensures MovementsOfPage(pagina).Failure? <==> pagina.movementHeading == Some(InDiv(None))
  {
  }

  /** Against crawler_jus/crawler.py: the same result whenever that version
      returns one; where it raises, this one returns `None`, except for the
      missing table, where both raise. */
  lemma MovementsAgree(pagina: Page)
    ensures Crawler.MovementsOfPage(pagina).Success? ==>
              MovementsOfPage(pagina) == Crawler.MovementsOfPage(pagina)
    ensures Crawler.MovementsOfPage(pagina).Failure? ==>
              if pagina.movementHeading == Some(InDiv(None)) then MovementsOfPage(pagina) == Crawler.MovementsOfPage(pagina)
              else MovementsOfPage(pagina) == Success(None)
  {
  }

  // ---------------------------------------------------------------------------
  // extract_processo_info_primeira_instancia
  // ---------------------------------------------------------------------------

  /** The values the `try` block computes. */
  datatype Extracted = Extracted(
    classe: string,
    area: string,
    assunto: string,
    dataDistribuicao: string,
    juiz: string,
    valorDaAcao: string,
    partes: seq<Crawler.Party>,
    movimentos: Option<seq<Crawler.Movement>>)

  /** The `try` block: every header field is required, in the order class,
      area, subject, date, judge, claim value. */
  function ExtractFields(pagina: Page): Result<Extracted, Error> {
    var classe :- Found(pagina.classeSpan);
    var area :- Found(pagina.area);
    var assunto :- Found(pagina.assuntoSpan);
    var dataDistribuicao :- Found(pagina.dataDistribuicao);
    var juiz :- Found(pagina.juiz);
    var valor :- Found(pagina.valorAcao);
    var partes :- Crawler.PartiesOfPage(pagina);
    var movimentos :- MovementsOfPage(pagina);
    Success(Extracted(classe, area, assunto, dataDistribuicao, juiz, DeleteChar(valor, ' '), partes, movimentos))
  }

  /** One attempt: only the fetch can fail it; what the `try` block extracts or
      raises is printed and dropped. */
  function PrimeiraInstanciaAttempt(npu: string, net: Crawler.Network, k: nat): Result<(), Error> {
    match net(k, URL_CONSULTA + npu)
    case Failure(e) => Failure(e)
    case Success(_) => Success(())
  }

  function PrimeiraInstanciaStep(npu: string, net: Crawler.Network): nat -> Result<(), Error> {
    (k: nat) => PrimeiraInstanciaAttempt(npu, net, k)
  }

  /** crawlers/crawler_tjal.py `extract_processo_info_primeira_instancia`:
      it gives up exactly when all five fetches fail, and otherwise returns
      `None` after the first fetch that succeeds. */
  method ExtractProcessoInfoPrimeiraInstancia(npu: string, net: Crawler.Network)
    returns (r: Outcome<()>, attempts: nat)
    ensures RetriedAs(PrimeiraInstanciaStep(npu, net), r, attempts)
    ensures r.GaveUp? <==> forall k :: 0 <= k < MAX_ATTEMPTS ==> net(k, URL_CONSULTA + npu).Failure?
    ensures r.Done? ==> net(attempts - 1, URL_CONSULTA + npu).Success?
  {
    var step := PrimeiraInstanciaStep(npu, net);
    r, attempts := Call(step);
    if r.GaveUp? {
      forall k | 0 <= k < MAX_ATTEMPTS ensures net(k, URL_CONSULTA + npu).Failure? {
        assert step(k).Failure?;
      }
    } else {
      assert step(attempts - 1).Success?;
    }
  }

  /** The `try` block completes exactly when all six header fields are on the
      page, the parties can be read and the movements table is not missing. */
  lemma ExtractFieldsSucceeds(pagina: Page)
    ensures ExtractFields(pagina).Success? <==>
              && pagina.classeSpan.Some? && pagina.area.Some? && pagina.assuntoSpan.Some?
              && pagina.dataDistribuicao.Some? && pagina.juiz.Some? && pagina.valorAcao.Some?
              && Crawler.PartiesOfPage(pagina).Success?
              && pagina.movementHeading != Some(InDiv(None))
  {
    MovementsFailOnlyWithoutTable(pagina);
  }

  /** Against crawler_jus/crawler.py: where that version builds a first-instance
      record from a page with a date and a judge, this block extracts the same
      values. */
  lemma ExtractFieldsAgree(pagina: Page, npu: string)
    requires Crawler.ExtractProcessoInfo(Some(pagina), npu, Crawler.IntGrau(1)).Success?
    requires pagina.dataDistribuicao.Some? && pagina.juiz.Some?
    ensures ExtractFields(pagina).Success?
    ensures var e := ExtractFields(pagina).value;
            var rec := Crawler.ExtractProcessoInfo(Some(pagina), npu, Crawler.IntGrau(1)).value;
            && e.classe == rec.classe && e.area == rec.area && e.assunto == rec.assunto
            && e.dataDistribuicao == rec.dataDistribuicao && e.juiz == rec.juiz
            && e.valorDaAcao == rec.valorDaAcao
            && e.partes == rec.partes && e.movimentos == rec.movimentos
  {
    MovementsAgree(pagina);
  }
}
