/** The `Crawler` class of crawler_jus/crawler.py: it reads the parties, the
    movements and the header fields of a court page of the Alagoas court
    (TJAL), and fetches first- and second-instance pages under a retry policy.

    Pages are `Document.Page` values; the HTTP session is the `Network`
    function, indexed by attempt so that every attempt may see a different
    answer. */
module Crawler {
  import opened Wrappers
  import opened Util
  import opened Dates
  import opened Document
  import opened Retry

  const TRIBUNAL_AL: string := "02"
  const URL_AL_PRIMEIRO_GRAU: string := "https://www2.tjal.jus.br/cpopg/show.do?processo.numero="
  const URL_AL_SEGUNDO_GRAU_1: string := "https://www2.tjal.jus.br/cposg5/search.do?conversationId=&paginaConsulta=0&cbPesquisa=NUMPROC&numeroDigitoAnoUnificado=&foroNumeroUnificado=&dePesquisaNuUnificado=&dePesquisaNuUnificado=UNIFICADO&dePesquisa="
  const URL_AL_SEGUNDO_GRAU_2: string := "https://www2.tjal.jus.br/cposg5/show.do?processo.codigo="

  const NAO_INFORMADO: string := "NAO_INFORMADO"
  const ADVOGADO_MARKER: string := "ADVOGAD"
  const ADVOGADO_PREFIX: string := "Advogado(a): "
  const SEM_MOVIMENTOS: string := "Não há Movimentações para este processo."

  /** An entry of `partes`: `[tipo_parte, nome_parte, lista_advogados]`. */
  datatype Party = Party(tipo: string, nome: string, advogados: seq<string>)

  /** An entry of `movimentos`: `[data, movimento_completo]`. */
  datatype Movement = Movement(date: Date, description: string)

  /** The `grau` argument: the int 1 for the first instance, the string "2" for the second. */
  datatype Grau = IntGrau(n: int) | TextGrau(s: string)

  /** The dictionary `extract_processo_info` returns. */
  datatype Process = Process(
    npu: string,
    classe: string,
    area: string,
    assunto: string,
    dataDistribuicao: string,
    juiz: string,
    valorDaAcao: string,
    partes: seq<Party>,
    movimentos: Option<seq<Movement>>,
    grau: Grau)

  /** Text `remove_special_characters` leaves unchanged (see
      `Util.RemoveSpecialCharactersFixedPoints`). */
  predicate Normalised(s: string) {
    NoSpecial(s) && Tidy(s)
  }

  // ---------------------------------------------------------------------------
  // extract_partes
  // ---------------------------------------------------------------------------

  /** Python's `sub in s`. */
  predicate HasInfix(s: string, sub: string)
    decreases |s|
  {
    (|sub| <= |s| && s[..|sub|] == sub) || (s != [] && HasInfix(s[1..], sub))
  }

  /** A row that names a party: two cells, the first not an attorney label. */
  predicate IsPartyRow(row: PartyRow) {
    |row| == 2 && !HasInfix(RemoveSpecialCharacters(row[0].text), ADVOGADO_MARKER)
  }

  /** A non-empty row the loop body reads without raising. */
  predicate RowReadable(row: PartyRow) {
    if IsPartyRow(row) then
      row[1].lead.Some? && forall k :: 0 <= k < |row[1].spans| ==> row[1].spans[k].Some?
    else
      |row| >= 2
  }

  /** An attorney string: the fixed label followed by normalised text. */
  predicate IsAttorneyEntry(a: string) {
    |ADVOGADO_PREFIX| <= |a| && a[..|ADVOGADO_PREFIX|] == ADVOGADO_PREFIX
    && Normalised(a[|ADVOGADO_PREFIX|..])
  }

  /** A role or a name: the initial placeholder, or normalised text. */
  predicate IsLabel(s: string) {
    s == NAO_INFORMADO || Normalised(s)
  }

  /** One attorney per span of a party's name cell, from the text after the span. */
  function Attorneys(spans: seq<Option<string>>): (r: Result<seq<string>, Error>)
    ensures r.Success? <==> forall k :: 0 <= k < |spans| ==> spans[k].Some?
    ensures r.Success? ==> |r.value| == |spans|
    ensures r.Success? ==> forall k :: 0 <= k < |spans| ==>
              r.value[k] == ADVOGADO_PREFIX + RemoveSpecialCharacters(spans[k].value)
    ensures r.Failure? ==> r.error == NotText
  {
    if spans == [] then Success([])
    else
      match spans[0]
      case None => Failure(NotText)
      case Some(t) => Prepend([ADVOGADO_PREFIX + RemoveSpecialCharacters(t)], Attorneys(spans[1..]))
  }

  /** The entry one non-empty row produces while the current party is
      (`tipo`, `nome`): a party row names a new party with its attorneys; any
      other row lists the attorney in its second cell under the current party. */
  function PartyOf(row: PartyRow, tipo: string, nome: string): (r: Result<Party, Error>)
    ensures r.Success? <==> RowReadable(row)
    ensures r.Success? && IsPartyRow(row) ==>
              && r.value.tipo == RemoveSpecialCharacters(row[0].text)
              && r.value.nome == RemoveSpecialCharacters(row[1].lead.value)
              && |r.value.advogados| == |row[1].spans|
    ensures r.Success? && !IsPartyRow(row) ==>
              r.value == Party(tipo, nome, [ADVOGADO_PREFIX + RemoveSpecialCharacters(row[1].text)])
  {
    if IsPartyRow(row) then
      match row[1].lead
      case None => Failure(NotText)
      case Some(lead) =>
        var advogados :- Attorneys(row[1].spans);
        Success(Party(RemoveSpecialCharacters(row[0].text), RemoveSpecialCharacters(lead), advogados))
    else if |row| < 2 then Failure(MissingCell)
    else Success(Party(tipo, nome, [ADVOGADO_PREFIX + RemoveSpecialCharacters(row[1].text)]))
  }

  /** The scan over the rows: empty rows are skipped, every other row adds one
      entry and passes its party on to the next row. */
  function PartiesOf(rows: seq<PartyRow>, tipo: string, nome: string): Result<seq<Party>, Error> {
    if rows == [] then Success([])
    else if rows[0] == [] then PartiesOf(rows[1..], tipo, nome)
    else
      match PartyOf(rows[0], tipo, nome)
      case Failure(e) => Failure(e)
      case Success(p) => Prepend([p], PartiesOf(rows[1..], p.tipo, p.nome))
  }

  /** The rows of `tableTodasPartes` when the page has it, else those of `tablePartesPrincipais`. */
  function PartyRows(pagina: Page): (r: Result<seq<PartyRow>, Error>)
    ensures pagina.todasPartes.Some? ==> r == Success(pagina.todasPartes.value)
    ensures pagina.todasPartes.None? ==> r == Found(pagina.partesPrincipais)
  {
    match pagina.todasPartes
    case Some(rows) => Success(rows)
    case None => Found(pagina.partesPrincipais)
  }

  /** What `extract_partes(pagina)` returns or raises. */
  function PartiesOfPage(pagina: Page): Result<seq<Party>, Error> {
    var rows :- PartyRows(pagina);
    PartiesOf(rows, NAO_INFORMADO, NAO_INFORMADO)
  }

  /** One step of the scan, at row `i`. */
  lemma PartiesOfStep(rows: seq<PartyRow>, i: nat, tipo: string, nome: string)
    requires i < |rows|
    ensures rows[i] == [] ==> PartiesOf(rows[i..], tipo, nome) == PartiesOf(rows[i + 1..], tipo, nome)
    ensures rows[i] != [] && PartyOf(rows[i], tipo, nome).Failure? ==>
              PartiesOf(rows[i..], tipo, nome) == Failure(PartyOf(rows[i], tipo, nome).error)
    ensures rows[i] != [] && PartyOf(rows[i], tipo, nome).Success? ==>
              var p := PartyOf(rows[i], tipo, nome).value;
              PartiesOf(rows[i..], tipo, nome) == Prepend([p], PartiesOf(rows[i + 1..], p.tipo, p.nome))
  {
    assert rows[i..][0] == rows[i] && rows[i..][1..] == rows[i + 1..];
  }

  /** The loop invariant of `extract_partes` across a row that adds entry `p`. */
  lemma ScanAdvance(whole: Result<seq<Party>, Error>, partes: seq<Party>, rows: seq<PartyRow>, i: nat,
                    tipo: string, nome: string, p: Party)
    requires i < |rows| && rows[i] != [] && PartyOf(rows[i], tipo, nome) == Success(p)
    requires whole == Prepend(partes, PartiesOf(rows[i..], tipo, nome))
    ensures whole == Prepend(partes + [p], PartiesOf(rows[i + 1..], p.tipo, p.nome))
  {
    PartiesOfStep(rows, i, tipo, nome);
    PrependPrepend(partes, [p], PartiesOf(rows[i + 1..], p.tipo, p.nome));
  }

  /** The loop invariant of `extract_partes` across an empty row. */
  lemma ScanSkip(whole: Result<seq<Party>, Error>, partes: seq<Party>, rows: seq<PartyRow>, i: nat,
                 tipo: string, nome: string)
    requires i < |rows| && rows[i] == []
    requires whole == Prepend(partes, PartiesOf(rows[i..], tipo, nome))
    ensures whole == Prepend(partes, PartiesOf(rows[i + 1..], tipo, nome))
  {
    PartiesOfStep(rows, i, tipo, nome);
  }

  /** A row that cannot be read ends the scan with its error. */
  lemma ScanFail(whole: Result<seq<Party>, Error>, partes: seq<Party>, rows: seq<PartyRow>, i: nat,
                 tipo: string, nome: string)
    requires i < |rows| && rows[i] != [] && PartyOf(rows[i], tipo, nome).Failure?
    requires whole == Prepend(partes, PartiesOf(rows[i..], tipo, nome))
    ensures whole == Failure(PartyOf(rows[i], tipo, nome).error)
  {
    PartiesOfStep(rows, i, tipo, nome);
  }

  /** At the end of the rows the invariant gives the entries collected. */
  lemma ScanDone(whole: Result<seq<Party>, Error>, partes: seq<Party>, rows: seq<PartyRow>, tipo: string, nome: string)
    requires whole == Prepend(partes, PartiesOf(rows[|rows|..], tipo, nome))
    ensures whole == Success(partes)
  {
    assert rows[|rows|..] == [];
    assert partes + [] == partes;
  }

  /** The inner loop of `extract_partes`: one attorney per span of the name cell. */
  method ExtractAdvogados(spans: seq<Option<string>>) returns (r: Result<seq<string>, Error>)
    ensures r == Attorneys(spans)
  {
    var advogados: seq<string> := [];
    var j := 0;
    assert spans[j..] == spans;
    PrependNil(Attorneys(spans));
    while j < |spans|
      invariant 0 <= j <= |spans|
      invariant Attorneys(spans) == Prepend(advogados, Attorneys(spans[j..]))
    {
      assert spans[j..][0] == spans[j] && spans[j..][1..] == spans[j + 1..];
      if spans[j].None? {
        return Failure(NotText);
      }
      var advogado := ADVOGADO_PREFIX + RemoveSpecialCharacters(spans[j].value);
      PrependPrepend(advogados, [advogado], Attorneys(spans[j + 1..]));
      advogados := advogados + [advogado];
      j := j + 1;
    }
    assert spans[j..] == [];
    assert advogados + [] == advogados;
    return Success(advogados);
  }

  /** The body of the row loop of `extract_partes`, for a non-empty row. */
  method ExtractParte(td: PartyRow, tipoParte: string, nomeParte: string) returns (r: Result<Party, Error>)
    ensures r == PartyOf(td, tipoParte, nomeParte)
  {
    if IsPartyRow(td) {
      if td[1].lead.None? {
        return Failure(NotText);
      }
      var advogados := ExtractAdvogados(td[1].spans);
      if advogados.Failure? {
        return Failure(advogados.error);
      }
      return Success(Party(RemoveSpecialCharacters(td[0].text), RemoveSpecialCharacters(td[1].lead.value), advogados.value));
    }
    if |td| < 2 {
      return Failure(MissingCell);
    }
    return Success(Party(tipoParte, nomeParte, [ADVOGADO_PREFIX + RemoveSpecialCharacters(td[1].text)]));
  }

  /** crawler_jus/crawler.py `extract_partes`. */
  method ExtractPartes(pagina: Page) returns (r: Result<seq<Party>, Error>)
    ensures r == PartiesOfPage(pagina)
  {
    var rows: seq<PartyRow>;
    if pagina.todasPartes.Some? {
      rows := pagina.todasPartes.value;
    } else if pagina.partesPrincipais.Some? {
      rows := pagina.partesPrincipais.value;
    } else {
      return Failure(MissingElement);
    }
    r := ScanPartes(rows);
  }

  /** Reads non-empty row `i` of the loop below and carries its invariant
      across that row: a failure is the scan's outcome, a new entry extends
      the entries collected and becomes the current party. */
  method ReadRow(ghost whole: Result<seq<Party>, Error>, ghost partes: seq<Party>, rows: seq<PartyRow>, i: nat,
                 tipo: string, nome: string) returns (r: Result<Party, Error>)
    requires i < |rows| && rows[i] != []
    requires whole == Prepend(partes, PartiesOf(rows[i..], tipo, nome))
    ensures r.Failure? ==> whole == Failure(r.error)
    ensures r.Success? ==> whole == Prepend(partes + [r.value], PartiesOf(rows[i + 1..], r.value.tipo, r.value.nome))
  {
    r := ExtractParte(rows[i], tipo, nome);
    if r.Failure? {
      ScanFail(whole, partes, rows, i, tipo, nome);
    } else {
      ScanAdvance(whole, partes, rows, i, tipo, nome, r.value);
    }
  }

  /** The row loop of `extract_partes`, starting from the placeholder party. */
  method ScanPartes(rows: seq<PartyRow>) returns (r: Result<seq<Party>, Error>)
    ensures r == PartiesOf(rows, NAO_INFORMADO, NAO_INFORMADO)
  {
    var tipoParte, nomeParte := NAO_INFORMADO, NAO_INFORMADO;
    var partes: seq<Party> := [];
    var i := 0;
    ghost var whole := PartiesOf(rows, NAO_INFORMADO, NAO_INFORMADO);
    assert rows[i..] == rows;
    PrependNil(whole);
    while i < |rows|
      invariant 0 <= i <= |rows|
      invariant whole == Prepend(partes, PartiesOf(rows[i..], tipoParte, nomeParte))
    {
      var td := rows[i];
      if td != [] {
        var parte := ReadRow(whole, partes, rows, i, tipoParte, nomeParte);
        if parte.Failure? {
          return Failure(parte.error);
        }
        partes := partes + [parte.value];
        tipoParte, nomeParte := parte.value.tipo, parte.value.nome;
      } else {
        ScanSkip(whole, partes, rows, i, tipoParte, nomeParte);
      }
      i := i + 1;
    }
    ScanDone(whole, partes, rows, tipoParte, nomeParte);
    return Success(partes);
  }

  /** The non-empty rows, in order. */
  function NonEmptyRows(rows: seq<PartyRow>): (rs: seq<PartyRow>)
    ensures |rs| <= |rows|
    ensures forall k :: 0 <= k < |rs| ==> rs[k] != []
  {
    if rows == [] then []
    else if rows[0] == [] then NonEmptyRows(rows[1..])
    else [rows[0]] + NonEmptyRows(rows[1..])
  }

  /** The party in force before entry `k`: the previous entry's, or the initial one. */
  function PreviousTipo(ps: seq<Party>, k: nat, tipo: string): string
    requires k <= |ps|
  {
    if k == 0 then tipo else ps[k - 1].tipo
  }

  function PreviousNome(ps: seq<Party>, k: nat, nome: string): string
    requires k <= |ps|
  {
    if k == 0 then nome else ps[k - 1].nome
  }

  /** Entry `k` of `ps` is row `k` of `rs` read under the party of entry
      `k - 1` (the initial party for `k == 0`). */
  predicate EntryFollows(ps: seq<Party>, rs: seq<PartyRow>, k: nat, tipo: string, nome: string)
    requires k < |ps| && k < |rs|
  {
    PartyOf(rs[k], PreviousTipo(ps, k, tipo), PreviousNome(ps, k, nome)) == Success(ps[k])
  }

  /** One entry per row, each following its row. */
  predicate EntriesFollowRows(ps: seq<Party>, rs: seq<PartyRow>, tipo: string, nome: string) {
    |ps| == |rs| && forall k: nat :: k < |ps| ==> EntryFollows(ps, rs, k, tipo, nome)
  }

  lemma EntryFollowsShift(p: Party, ps: seq<Party>, row: PartyRow, rs: seq<PartyRow>, k: nat, tipo: string, nome: string)
    requires 0 < k <= |ps| && |ps| == |rs|
    requires EntryFollows(ps, rs, k - 1, p.tipo, p.nome)
    ensures EntryFollows([p] + ps, [row] + rs, k, tipo, nome)
  {
    var ps', rs' := [p] + ps, [row] + rs;
    var before: Party := if k == 1 then p else ps[k - 2];
    assert ps'[k - 1] == before;
    assert PreviousTipo(ps', k, tipo) == before.tipo == PreviousTipo(ps, k - 1, p.tipo);
    assert PreviousNome(ps', k, nome) == before.nome == PreviousNome(ps, k - 1, p.nome);
    assert rs'[k] == rs[k - 1] && ps'[k] == ps[k - 1];
  }

  lemma EntriesCons(p: Party, ps: seq<Party>, row: PartyRow, rs: seq<PartyRow>, tipo: string, nome: string)
    requires PartyOf(row, tipo, nome) == Success(p)
    requires EntriesFollowRows(ps, rs, p.tipo, p.nome)
    ensures EntriesFollowRows([p] + ps, [row] + rs, tipo, nome)
  {
    forall k: nat | k < |ps| + 1 ensures EntryFollows([p] + ps, [row] + rs, k, tipo, nome) {
      if k > 0 {
        EntryFollowsShift(p, ps, row, rs, k, tipo, nome);
      } else {
        assert ([row] + rs)[0] == row && ([p] + ps)[0] == p;
      }
    }
  }

  /** Exactly one entry per non-empty row, in row order; entry `k` is row `k`
      read under the party of entry `k - 1` (the initial party for the first). */
  lemma {:induction false} PartiesOfEntries(rows: seq<PartyRow>, tipo: string, nome: string)
    requires PartiesOf(rows, tipo, nome).Success?
    ensures EntriesFollowRows(PartiesOf(rows, tipo, nome).value, NonEmptyRows(rows), tipo, nome)
    decreases |rows|
  {
    if rows != [] {
      PartiesOfStep(rows, 0, tipo, nome);
      assert rows[0..] == rows;
      if rows[0] == [] {
        PartiesOfEntries(rows[1..], tipo, nome);
      } else {
        var p := PartyOf(rows[0], tipo, nome).value;
        PartiesOfEntries(rows[1..], p.tipo, p.nome);
        EntriesCons(p, PartiesOf(rows[1..], p.tipo, p.nome).value, rows[0], NonEmptyRows(rows[1..]), tipo, nome);
      }
    }
  }

  /** The scan succeeds exactly when every non-empty row is readable; the
      party carried in does not matter. */
  lemma {:induction false} PartiesOfSucceeds(rows: seq<PartyRow>, tipo: string, nome: string)
    ensures PartiesOf(rows, tipo, nome).Success?
            <==> forall k :: 0 <= k < |rows| && rows[k] != [] ==> RowReadable(rows[k])
    decreases |rows|
  {
    if rows != [] {
      if rows[0] == [] {
        PartiesOfSucceeds(rows[1..], tipo, nome);
      } else if RowReadable(rows[0]) {
        var p := PartyOf(rows[0], tipo, nome).value;
        PartiesOfSucceeds(rows[1..], p.tipo, p.nome);
      }
      assert forall k :: 1 <= k < |rows| ==> rows[k] == rows[1..][k - 1];
    }
  }

  /** An entry whose role and name are labels and whose attorneys are all
      attorney strings. */
  predicate CleanParty(p: Party) {
    IsLabel(p.tipo) && IsLabel(p.nome)
    && forall j :: 0 <= j < |p.advogados| ==> IsAttorneyEntry(p.advogados[j])
  }

  lemma AttorneyEntryClean(t: string)
    ensures IsAttorneyEntry(ADVOGADO_PREFIX + RemoveSpecialCharacters(t))
  {
    RemoveSpecialCharactersShape(t);
    assert (ADVOGADO_PREFIX + RemoveSpecialCharacters(t))[|ADVOGADO_PREFIX|..] == RemoveSpecialCharacters(t);
  }

  /** Reading a row under a labelled party gives a clean entry. */
  lemma PartyOfClean(row: PartyRow, tipo: string, nome: string)
    requires IsLabel(tipo) && IsLabel(nome)
    requires PartyOf(row, tipo, nome).Success?
    ensures CleanParty(PartyOf(row, tipo, nome).value)
  {
    var p := PartyOf(row, tipo, nome).value;
    if IsPartyRow(row) {
      RemoveSpecialCharactersShape(row[0].text);
      RemoveSpecialCharactersShape(row[1].lead.value);
      var spans := row[1].spans;
      forall k | 0 <= k < |p.advogados| ensures IsAttorneyEntry(p.advogados[k]) {
        AttorneyEntryClean(spans[k].value);
      }
    } else {
      AttorneyEntryClean(row[1].text);
    }
  }

  predicate AllClean(ps: seq<Party>) {
    forall k :: 0 <= k < |ps| ==> CleanParty(ps[k])
  }

  lemma AllCleanCons(p: Party, ps: seq<Party>)
    requires CleanParty(p) && AllClean(ps)
    ensures AllClean([p] + ps)
  {
    assert forall k :: 0 < k < |ps| + 1 ==> ([p] + ps)[k] == ps[k - 1];
  }

  /** Starting from a labelled party (the placeholder, say), every role and
      name is the placeholder "NAO_INFORMADO" or normalised text, and every
      attorney string is "Advogado(a): " followed by normalised text. */
  lemma {:induction false} PartiesOfClean(rows: seq<PartyRow>, tipo: string, nome: string)
    requires IsLabel(tipo) && IsLabel(nome)
    requires PartiesOf(rows, tipo, nome).Success?
    ensures AllClean(PartiesOf(rows, tipo, nome).value)
    decreases |rows|
  {
    if rows != [] {
      PartiesOfStep(rows, 0, tipo, nome);
      assert rows[0..] == rows;
      if rows[0] == [] {
        PartiesOfClean(rows[1..], tipo, nome);
      } else {
        var p := PartyOf(rows[0], tipo, nome).value;
        PartyOfClean(rows[0], tipo, nome);
        PartiesOfClean(rows[1..], p.tipo, p.nome);
        AllCleanCons(p, PartiesOf(rows[1..], p.tipo, p.nome).value);
      }
    }
  }

  /** Until the first party row, entries carry the placeholder role and name;
      with only attorney rows, every entry does. */
  lemma PlaceholderUntilPartyRow(rows: seq<PartyRow>)
    requires PartiesOf(rows, NAO_INFORMADO, NAO_INFORMADO).Success?
    requires forall k :: 0 <= k < |rows| ==> !IsPartyRow(rows[k])
    ensures var ps := PartiesOf(rows, NAO_INFORMADO, NAO_INFORMADO).value;
            forall k :: 0 <= k < |ps| ==> ps[k].tipo == NAO_INFORMADO && ps[k].nome == NAO_INFORMADO
  {
    PlaceholderCarried(rows, NAO_INFORMADO, NAO_INFORMADO);
  }

  lemma {:induction false} PlaceholderCarried(rows: seq<PartyRow>, tipo: string, nome: string)
    requires PartiesOf(rows, tipo, nome).Success?
    requires forall k :: 0 <= k < |rows| ==> !IsPartyRow(rows[k])
    ensures var ps := PartiesOf(rows, tipo, nome).value;
            forall k :: 0 <= k < |ps| ==> ps[k].tipo == tipo && ps[k].nome == nome
    decreases |rows|
  {
    if rows != [] {
      assert forall k :: 0 <= k < |rows| - 1 ==> rows[1..][k] == rows[k + 1];
      PlaceholderCarried(rows[1..], tipo, nome);
    }
  }

  // ---------------------------------------------------------------------------
  // extract_movimentos
  // ---------------------------------------------------------------------------

  /** `strptime(remove_blank_space(text), "%d/%m/%Y")`. */
  function MovementDate(text: string): (r: Result<Date, Error>)
    ensures r.Success? ==> ValidDate(r.value)
    ensures r.Failure? ==> r.error == BadDate
  {
    match ParseDate(RemoveBlankSpace(text))
    case Some(d) => Success(d)
    case None => Failure(BadDate)
  }

  /** The movement type: the text of the cell's link if it has one, else the
      node that opens the cell (which raises when it is not a string). */
  function MovementType(cell: DescriptionCell): (r: Result<string, Error>)
    ensures r.Success? ==> Normalised(r.value)
  {
    match cell.link
    case Some(a) =>
      RemoveSpecialCharactersShape(a);
      Success(RemoveSpecialCharacters(a))
    case None =>
      match cell.lead
      case Some(t) =>
        RemoveSpecialCharactersShape(t);
        Success(RemoveSpecialCharacters(t))
      case None => Failure(NotText)
  }

  /** `movimento_completo`: the type, then a space and the text when the text is not empty. */
  function Describe(tipo: string, texto: string): string {
    if texto != "" then tipo + " " + texto else tipo
  }

  /** One `containerMovimentacao` row. */
  function MovementOf(row: MovementRow): Result<Movement, Error> {
    var dateText :- Found(row.date);
    var date :- MovementDate(dateText);
    var cell :- Found(row.description);
    var tipo :- MovementType(cell);
    var span :- Found(row.span);
    Success(Movement(date, Describe(tipo, RemoveSpecialCharacters(span))))
  }

  /** The rows read in order; the first failing row's error is raised. */
  function MovementsOf(rows: seq<MovementRow>): Result<seq<Movement>, Error> {
    if rows == [] then Success([])
    else
      var m :- MovementOf(rows[0]);
      Prepend([m], MovementsOf(rows[1..]))
  }

  /** One step of the loop over the rows, at row `i`. */
  lemma MovementsOfStep(rows: seq<MovementRow>, i: nat)
    requires i < |rows|
    ensures MovementOf(rows[i]).Failure? ==> MovementsOf(rows[i..]) == Failure(MovementOf(rows[i]).error)
    ensures MovementOf(rows[i]).Success? ==>
              MovementsOf(rows[i..]) == Prepend([MovementOf(rows[i]).value], MovementsOf(rows[i + 1..]))
  {
    assert rows[i..][0] == rows[i] && rows[i..][1..] == rows[i + 1..];
  }

  /** The loop succeeds exactly when every row can be read, and then gives one
      movement per row, in row order. */
  lemma {:induction false} MovementsOfRows(rows: seq<MovementRow>)
    ensures MovementsOf(rows).Success? <==> forall k :: 0 <= k < |rows| ==> MovementOf(rows[k]).Success?
    ensures MovementsOf(rows).Success? ==>
              && |MovementsOf(rows).value| == |rows|
              && forall k :: 0 <= k < |rows| ==> MovementsOf(rows).value[k] == MovementOf(rows[k]).value
    decreases |rows|
  {
    if rows != [] {
      MovementsOfStep(rows, 0);
      assert rows[0..] == rows;
      MovementsOfRows(rows[1..]);
      assert forall k :: 1 <= k < |rows| ==> rows[k] == rows[1..][k - 1];
    }
  }

  /** What `extract_movimentos(pagina)` returns (`Some` of a list, or `None`) or raises. */
  function MovementsOfPage(pagina: Page): Result<Option<seq<Movement>>, Error> {
    match pagina.movementHeading
    case None => Success(Some([]))
    case Some(Detached) => Success(Some([]))
    case Some(InDiv(table)) =>
      var text :- Found(table);
      if RemoveBlankSpace(text) == SEM_MOVIMENTOS then Success(None)
      else
        var rows :- Found(pagina.movementRows);
        var movimentos :- MovementsOf(rows);
        Success(Some(movimentos))
  }

  /** crawler_jus/crawler.py `extract_movimentos`. */
  method ExtractMovimentos(pagina: Page) returns (r: Result<Option<seq<Movement>>, Error>)
    ensures r == MovementsOfPage(pagina)
  {
    if pagina.movementHeading.None? || pagina.movementHeading.value.Detached? {
      return Success(Some([]));
    }
    var table := pagina.movementHeading.value.table;
    if table.None? {
      return Failure(MissingElement);
    }
    if RemoveBlankSpace(table.value) == SEM_MOVIMENTOS {
      return Success(None);
    }
    if pagina.movementRows.None? {
      return Failure(MissingElement);
    }
    var rows := pagina.movementRows.value;
    var movimentos: seq<Movement> := [];
    var i := 0;
    assert rows[i..] == rows;
    PrependNil(MovementsOf(rows));
    while i < |rows|
      invariant 0 <= i <= |rows|
      invariant MovementsOf(rows) == Prepend(movimentos, MovementsOf(rows[i..]))
    {
      MovementsOfStep(rows, i);
      var m := MovementOf(rows[i]);
      if m.Failure? {
        return Failure(m.error);
      }
      PrependPrepend(movimentos, [m.value], MovementsOf(rows[i + 1..]));
      movimentos := movimentos + [m.value];
      i := i + 1;
    }
    assert rows[i..] == [];
    assert movimentos + [] == movimentos;
    return Success(Some(movimentos));
  }

  /** The movements table holds the fixed "no movements" sentence. */
  predicate NoMovementsNotice(pagina: Page) {
    match pagina.movementHeading
    case Some(InDiv(Some(text))) => RemoveBlankSpace(text) == SEM_MOVIMENTOS
    case _ => false
  }

  /** The movements table is there and does not hold that sentence: the rows are read. */
  predicate ListsMovements(pagina: Page) {
    match pagina.movementHeading
    case Some(InDiv(Some(text))) => RemoveBlankSpace(text) != SEM_MOVIMENTOS
    case _ => false
  }

  /** The three outcomes of `extract_movimentos`: no heading (or a heading
      outside any `div`) gives the empty list, the "no movements" sentence
      gives `None`, and otherwise the call gives one movement per row, in row
      order, or raises when the table, the row container or a row cannot be
      read. */
  lemma MovementsOfPageOutcomes(pagina: Page)
    ensures pagina.movementHeading.None? || pagina.movementHeading == Some(Detached) ==>
              MovementsOfPage(pagina) == Success(Some([]))
    ensures MovementsOfPage(pagina) == Success(None) <==> NoMovementsNotice(pagina)
    ensures MovementsOfPage(pagina).Failure? <==>
              || pagina.movementHeading == Some(InDiv(None))
              || (ListsMovements(pagina) && pagina.movementRows.None?)
              || (ListsMovements(pagina) && pagina.movementRows.Some? &&
                  exists k :: 0 <= k < |pagina.movementRows.value| && MovementOf(pagina.movementRows.value[k]).Failure?)
    ensures ListsMovements(pagina) && MovementsOfPage(pagina).Success? ==>
              var rows := pagina.movementRows.value;
              var ms := MovementsOfPage(pagina).value;
              && ms.Some? && |ms.value| == |rows|
              && forall k :: 0 <= k < |rows| ==> ms.value[k] == MovementOf(rows[k]).value
  {
    if pagina.movementRows.Some? {
      MovementsOfRows(pagina.movementRows.value);
    }
  }

  /** A description is the type alone, or the type, one space and the text.
      Both parts are normalised, so the description has no special
      characters and keeps all their other characters in order; it is tidy
      unless the type is empty and the text is not, when it starts with the
      joining space. */
  lemma DescribeShape(tipo: string, texto: string)
    requires Normalised(tipo) && Normalised(texto)
    ensures NoSpecial(Describe(tipo, texto))
    ensures Tidy(Describe(tipo, texto)) <==> tipo != "" || texto == ""
    ensures DropSpaces(Describe(tipo, texto)) == DropSpaces(tipo) + DropSpaces(texto)
  {
    if texto == "" {
      assert tipo + texto == tipo;
      DropSpacesAppend(tipo, texto);
    } else {
      NoSpecialSpaceJoin(tipo, texto);
      DropSpacesSpaceJoin(tipo, texto);
      if tipo != "" {
        TidySpaceJoin(tipo, texto);
      } else {
        assert Describe(tipo, texto)[0] == ' ';
      }
    }
  }

  /** A movement read from a row: its date is the row's date text, with its
      whitespace collapsed, read as a valid day/month/year; its description is
      the row's type and text as `DescribeShape` says. */
  lemma MovementOfShape(row: MovementRow)
    requires MovementOf(row).Success?
    ensures var m := MovementOf(row).value;
            var tipo := MovementType(row.description.value).value;
            var texto := RemoveSpecialCharacters(row.span.value);
            && Some(m.date) == ParseDate(RemoveBlankSpace(row.date.value))
            && ValidDate(m.date)
            && m.description == Describe(tipo, texto)
            && NoSpecial(m.description)
            && (Tidy(m.description) <==> tipo != "" || texto == "")
            && DropSpaces(m.description) == DropSpaces(tipo) + DropSpaces(texto)
  {
    var tipo := MovementType(row.description.value).value;
    var texto := RemoveSpecialCharacters(row.span.value);
    RemoveSpecialCharactersShape(row.span.value);
    DescribeShape(tipo, texto);
  }

  // ---------------------------------------------------------------------------
  // extract_processo_info
  // ---------------------------------------------------------------------------

  /** Python truthiness of the `grau` argument. */
  predicate Truthy(grau: Grau) {
    match grau
    case IntGrau(n) => n != 0
    case TextGrau(s) => s != ""
  }

  /** The class is read from a `span` for `grau == 1` and from a `div` otherwise. */
  function ClasseOf(pagina: Page, grau: Grau): Option<string> {
    if grau == IntGrau(1) then pagina.classeSpan else pagina.classeDiv
  }

  /** The subject is read from a `span` for `grau == 1` and from a `div` otherwise. */
  function AssuntoOf(pagina: Page, grau: Grau): Option<string> {
    if grau == IntGrau(1) then pagina.assuntoSpan else pagina.assuntoDiv
  }

  /** crawler_jus/crawler.py `extract_processo_info`. `pagina` is `None` where
      the caller replaced a no-record page by `None`. The `x if x else ""`
      fallbacks leave strings unchanged and are not written out. */
  function ExtractProcessoInfo(pagina: Option<Page>, npu: string, grau: Grau): Result<Process, Error> {
    var p :- Found(pagina);
    var classe :- Found(ClasseOf(p, grau));
    var assunto :- Found(AssuntoOf(p, grau));
    var area :- Found(p.area);
    var dataDistribuicao := p.dataDistribuicao.GetOr("");
    var juiz := p.juiz.GetOr("");
    var valor :- Found(p.valorAcao);
    var partes :- PartiesOfPage(p);
    var movimentos :- MovementsOfPage(p);
    Success(Process(npu, classe, area, assunto, dataDistribuicao, juiz, DeleteChar(valor, ' '),
                    partes, movimentos, if Truthy(grau) then grau else TextGrau("")))
  }

  /** The record is built exactly when there is a page and it has the class,
      subject, area and claim value, and its parties and movements can be
      read; a missing date or judge does not stop it. */
  lemma ExtractProcessoInfoSucceeds(pagina: Option<Page>, npu: string, grau: Grau)
    ensures ExtractProcessoInfo(pagina, npu, grau).Success? <==>
              && pagina.Some?
              && ClasseOf(pagina.value, grau).Some?
              && AssuntoOf(pagina.value, grau).Some?
              && pagina.value.area.Some?
              && pagina.value.valorAcao.Some?
              && PartiesOfPage(pagina.value).Success?
              && MovementsOfPage(pagina.value).Success?
    ensures pagina.None? ==> ExtractProcessoInfo(pagina, npu, grau) == Failure(MissingElement)
  {
  }

  /** The fields of a built record: the text found on the page, `""` for a
      missing date or judge, the claim value with every ' ' removed (its other
      characters kept in order), the parties and movements of the page, and
      the instance as given. */
  lemma ExtractProcessoInfoFields(pagina: Option<Page>, npu: string, grau: Grau)
    requires ExtractProcessoInfo(pagina, npu, grau).Success?
    ensures var r := ExtractProcessoInfo(pagina, npu, grau).value;
            var p := pagina.value;
            && r.npu == npu
            && Some(r.classe) == ClasseOf(p, grau)
            && Some(r.assunto) == AssuntoOf(p, grau)
            && Some(r.area) == p.area
            && (p.dataDistribuicao.Some? ==> r.dataDistribuicao == p.dataDistribuicao.value)
            && (p.dataDistribuicao.None? ==> r.dataDistribuicao == "")
            && (p.juiz.Some? ==> r.juiz == p.juiz.value)
            && (p.juiz.None? ==> r.juiz == "")
            && (forall i :: 0 <= i < |r.valorDaAcao| ==> r.valorDaAcao[i] != ' ')
            && DropSpaces(r.valorDaAcao) == DropSpaces(p.valorAcao.value)
            && Success(r.partes) == PartiesOfPage(p)
            && Success(r.movimentos) == MovementsOfPage(p)
            && (Truthy(grau) ==> r.grau == grau)
  {
  }

  // ---------------------------------------------------------------------------
  // get_codigo_segunda_instancia, send_request_primeiro_grau, send_request_segundo_grau
  // ---------------------------------------------------------------------------

  /** The HTTP session: the page answered to a GET of a URL at a given attempt,
      or the exception the request raised. */
  type Network = (nat, string) -> Result<Page, Error>

  /** One attempt of a request method: the URLs it fetched, in order, and what
      it returned or raised. */
  datatype Attempt = Attempt(requested: seq<string>, outcome: Result<Process, Error>)

  /** crawler_jus/crawler.py `get_codigo_segunda_instancia`: the `value` of
      `input#processoSelecionado`, raising when there is no such input. */
  function GetCodigoSegundaInstancia(pagina: Page): (r: Result<Option<string>, Error>)
    ensures r.Success? <==> pagina.selection.Some?
    ensures r.Success? ==> r.value == pagina.selection.value.value
    ensures r.Failure? ==> r.error == MissingElement
  {
    var input :- Found(pagina.selection);
    Success(input.value)
  }

  /** An f-string of the code: a missing attribute is written "None". */
  function CodigoText(codigo: Option<string>): string {
    codigo.GetOr("None")
  }

  /** A page showing the `mensagemRetorno` marker is replaced by `None`. */
  function NoRecordAsNone(pagina: Page): Option<Page> {
    if pagina.noRecordMarker then None else Some(pagina)
  }

  /** One attempt of `send_request_primeiro_grau`. */
  function PrimeiroGrauAttempt(npu: string, tribunal: string, net: Network, k: nat): Attempt {
    if tribunal != TRIBUNAL_AL then Attempt([], Failure(Unbound))
    else
      var url := URL_AL_PRIMEIRO_GRAU + npu;
      match net(k, url)
      case Failure(e) => Attempt([url], Failure(e))
      case Success(pagina) => Attempt([url], ExtractProcessoInfo(NoRecordAsNone(pagina), npu, IntGrau(1)))
  }

  /** One attempt of `send_request_segundo_grau`: the search page, then, unless
      it shows the marker, the page of the selected process when it offers a
      selection. */
  function SegundoGrauAttempt(npu: string, tribunal: string, net: Network, k: nat): Attempt {
    if tribunal != TRIBUNAL_AL then Attempt([], Failure(Unbound))
    else
      var url := URL_AL_SEGUNDO_GRAU_1 + npu;
      match net(k, url)
      case Failure(e) => Attempt([url], Failure(e))
      case Success(busca) =>
        if busca.noRecordMarker then Attempt([url], ExtractProcessoInfo(None, npu, TextGrau("2")))
        else if busca.selection.None? then Attempt([url], ExtractProcessoInfo(Some(busca), npu, TextGrau("2")))
        else
          match GetCodigoSegundaInstancia(busca)
          case Failure(e) => Attempt([url], Failure(e))
          case Success(codigo) =>
            var url2 := URL_AL_SEGUNDO_GRAU_2 + CodigoText(codigo);
            match net(k, url2)
            case Failure(e) => Attempt([url, url2], Failure(e))
            case Success(pagina) => Attempt([url, url2], ExtractProcessoInfo(Some(pagina), npu, TextGrau("2")))
  }

  function PrimeiroGrauStep(npu: string, tribunal: string, net: Network): nat -> Result<Process, Error> {
    (k: nat) => PrimeiroGrauAttempt(npu, tribunal, net, k).outcome
  }

  function SegundoGrauStep(npu: string, tribunal: string, net: Network): nat -> Result<Process, Error> {
    (k: nat) => SegundoGrauAttempt(npu, tribunal, net, k).outcome
  }

  /** crawler_jus/crawler.py `send_request_primeiro_grau`, with its retry policy. */
  method SendRequestPrimeiroGrau(npu: string, tribunal: string, net: Network)
    returns (r: Outcome<Process>, attempts: nat)
    ensures RetriedAs(PrimeiroGrauStep(npu, tribunal, net), r, attempts)
    ensures tribunal != TRIBUNAL_AL ==> r == GaveUp(Unbound) && attempts == MAX_ATTEMPTS
  {
    r, attempts := Call(PrimeiroGrauStep(npu, tribunal, net));
    if tribunal != TRIBUNAL_AL {
      AllFailuresGiveUp(PrimeiroGrauStep(npu, tribunal, net), r, attempts);
    }
  }

  /** crawler_jus/crawler.py `send_request_segundo_grau`, with its retry policy. */
  method SendRequestSegundoGrau(npu: string, tribunal: string, net: Network)
    returns (r: Outcome<Process>, attempts: nat)
    ensures RetriedAs(SegundoGrauStep(npu, tribunal, net), r, attempts)
    ensures tribunal != TRIBUNAL_AL ==> r == GaveUp(Unbound) && attempts == MAX_ATTEMPTS
  {
    r, attempts := Call(SegundoGrauStep(npu, tribunal, net));
    if tribunal != TRIBUNAL_AL {
      AllFailuresGiveUp(SegundoGrauStep(npu, tribunal, net), r, attempts);
    }
  }

  /** Requests are built for the Alagoas court ("02") only; for any other
      court an attempt fetches nothing and fails because its result variable
      was never bound. */
  lemma OnlyAlagoasIsQueried(npu: string, tribunal: string, net: Network, k: nat)
    ensures |PrimeiroGrauAttempt(npu, tribunal, net, k).requested| > 0 <==> tribunal == TRIBUNAL_AL
    ensures |SegundoGrauAttempt(npu, tribunal, net, k).requested| > 0 <==> tribunal == TRIBUNAL_AL
    ensures tribunal != TRIBUNAL_AL ==>
              && PrimeiroGrauAttempt(npu, tribunal, net, k).outcome == Failure(Unbound)
              && SegundoGrauAttempt(npu, tribunal, net, k).outcome == Failure(Unbound)
    ensures tribunal == TRIBUNAL_AL ==>
              && PrimeiroGrauAttempt(npu, tribunal, net, k).requested == [URL_AL_PRIMEIRO_GRAU + npu]
              && SegundoGrauAttempt(npu, tribunal, net, k).requested[0] == URL_AL_SEGUNDO_GRAU_1 + npu
  {
  }

  /** Second-instance resolution: the marker is checked first and makes the
      attempt fail; otherwise a selection input leads to a second fetch, by
      the input's code, whose page is read; otherwise the search page itself
      is read. */
  lemma SegundoGrauResolution(npu: string, net: Network, k: nat)
    requires net(k, URL_AL_SEGUNDO_GRAU_1 + npu).Success?
    ensures var busca := net(k, URL_AL_SEGUNDO_GRAU_1 + npu).value;
            var a := SegundoGrauAttempt(npu, TRIBUNAL_AL, net, k);
            && (|a.requested| == 2 <==> !busca.noRecordMarker && busca.selection.Some?)
            && (busca.noRecordMarker ==> a.outcome == Failure(MissingElement))
            && (!busca.noRecordMarker && busca.selection.None? ==>
                  a.outcome == ExtractProcessoInfo(Some(busca), npu, TextGrau("2")))
            && (|a.requested| == 2 ==>
                  && a.requested[1] == URL_AL_SEGUNDO_GRAU_2 + CodigoText(busca.selection.value.value)
                  && (net(k, a.requested[1]).Success? ==>
                        a.outcome == ExtractProcessoInfo(Some(net(k, a.requested[1]).value), npu, TextGrau("2")))
                  && (net(k, a.requested[1]).Failure? ==> a.outcome == Failure(net(k, a.requested[1]).error)))
  {
  }

  /** A process the court has no record of is never reported as empty: the
      no-record page becomes `None`, reading it raises, every attempt fails
      the same way and the call gives up after five attempts. */
  lemma PrimeiroGrauNoRecordGivesUp(npu: string, net: Network, r: Outcome<Process>, attempts: nat)
    requires forall k :: 0 <= k < MAX_ATTEMPTS ==>
               net(k, URL_AL_PRIMEIRO_GRAU + npu).Success? && net(k, URL_AL_PRIMEIRO_GRAU + npu).value.noRecordMarker
    requires RetriedAs(PrimeiroGrauStep(npu, TRIBUNAL_AL, net), r, attempts)
    ensures r == GaveUp(MissingElement) && attempts == MAX_ATTEMPTS
  {
    var step := PrimeiroGrauStep(npu, TRIBUNAL_AL, net);
    forall k | 0 <= k < MAX_ATTEMPTS ensures step(k) == Failure(MissingElement) {
      assert net(k, URL_AL_PRIMEIRO_GRAU + npu).value.noRecordMarker;
    }
    AllFailuresGiveUp(step, r, attempts);
  }

  lemma SegundoGrauNoRecordGivesUp(npu: string, net: Network, r: Outcome<Process>, attempts: nat)
    requires forall k :: 0 <= k < MAX_ATTEMPTS ==>
               net(k, URL_AL_SEGUNDO_GRAU_1 + npu).Success? && net(k, URL_AL_SEGUNDO_GRAU_1 + npu).value.noRecordMarker
    requires RetriedAs(SegundoGrauStep(npu, TRIBUNAL_AL, net), r, attempts)
    ensures r == GaveUp(MissingElement) && attempts == MAX_ATTEMPTS
  {
    var step := SegundoGrauStep(npu, TRIBUNAL_AL, net);
    forall k | 0 <= k < MAX_ATTEMPTS ensures step(k) == Failure(MissingElement) {
      assert net(k, URL_AL_SEGUNDO_GRAU_1 + npu).value.noRecordMarker;
    }
    AllFailuresGiveUp(step, r, attempts);
  }

  /** A record a request method returns was read for the process asked for,
      from the Alagoas court, at the instance of that method. */
  lemma SendRequestRecords(npu: string, tribunal: string, net: Network, r: Outcome<Process>, attempts: nat)
    ensures RetriedAs(PrimeiroGrauStep(npu, tribunal, net), r, attempts) && r.Done? ==>
              tribunal == TRIBUNAL_AL && r.value.npu == npu && r.value.grau == IntGrau(1)
    ensures RetriedAs(SegundoGrauStep(npu, tribunal, net), r, attempts) && r.Done? ==>
              tribunal == TRIBUNAL_AL && r.value.npu == npu && r.value.grau == TextGrau("2")
  {
    if RetriedAs(PrimeiroGrauStep(npu, tribunal, net), r, attempts) && r.Done? {
      var a := PrimeiroGrauAttempt(npu, tribunal, net, attempts - 1);
      assert a.outcome == Success(r.value);
      assert tribunal == TRIBUNAL_AL;
      var pagina := net(attempts - 1, URL_AL_PRIMEIRO_GRAU + npu).value;
      ExtractProcessoInfoFields(NoRecordAsNone(pagina), npu, IntGrau(1));
    }
    if RetriedAs(SegundoGrauStep(npu, tribunal, net), r, attempts) && r.Done? {
      var a := SegundoGrauAttempt(npu, tribunal, net, attempts - 1);
      assert a.outcome == Success(r.value);
      assert tribunal == TRIBUNAL_AL;
      SegundoGrauRecord(npu, net, attempts - 1);
    }
  }

  lemma SegundoGrauRecord(npu: string, net: Network, k: nat)
    requires SegundoGrauAttempt(npu, TRIBUNAL_AL, net, k).outcome.Success?
    ensures var rec := SegundoGrauAttempt(npu, TRIBUNAL_AL, net, k).outcome.value;
            rec.npu == npu && rec.grau == TextGrau("2")
  {
    var busca := net(k, URL_AL_SEGUNDO_GRAU_1 + npu).value;
    if busca.selection.None? {
      ExtractProcessoInfoFields(Some(busca), npu, TextGrau("2"));
    } else {
      var url2 := URL_AL_SEGUNDO_GRAU_2 + CodigoText(busca.selection.value.value);
      ExtractProcessoInfoFields(Some(net(k, url2).value), npu, TextGrau("2"));
    }
  }
}
