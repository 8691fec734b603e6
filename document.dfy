/** The fetched court page, as the crawler sees it through BeautifulSoup.
    Every lookup the extraction code makes becomes a field holding what the
    lookup finds; `None` stands for a lookup that returns nothing. Text fields
    hold what `get_text(strip=True)` or `.text` returns. */
module Document {
  import opened Wrappers

  /** The Python exceptions the crawler can raise, by cause. */
  datatype Error =
    | MissingElement  // AttributeError: a lookup found nothing and its result was used
    | NotText         // TypeError: a node that is not a string was given to re.sub
    | MissingCell     // IndexError: `td[1]` of a row with a single cell
    | BadDate         // ValueError raised by strptime
    | Unbound         // UnboundLocalError: the result variable was never assigned
    | Network         // an exception raised by the HTTP session (connection, timeout)

  /** A `td` of a party table: its `.text`, its `.next` node (a string, or `None`
      when that node is a tag) and, for each `span` inside it, the span's
      `.next_sibling` (a string, or `None` when it is a tag or absent). */
  datatype PartyCell = PartyCell(text: string, lead: Option<string>, spans: seq<Option<string>>)

  /** The `td` cells of one `tr`. */
  type PartyRow = seq<PartyCell>

  /** The `h2` whose text mentions "Movimentações": `Detached` when it has no
      enclosing `div`, otherwise the text of the `table` that follows that `div`. */
  datatype MovementHeading = Detached | InDiv(table: Option<string>)

  /** A `td.descricaoMovimentacao`: the text of its first `a`, and its `.next` node. */
  datatype DescriptionCell = DescriptionCell(link: Option<string>, lead: Option<string>)

  /** A `tr.containerMovimentacao`: the text of its `td.dataMovimentacao`, its
      description cell and the text of the first `span` in the row. */
  datatype MovementRow = MovementRow(date: Option<string>, description: Option<DescriptionCell>, span: Option<string>)

  /** An `input#processoSelecionado` and its `value` attribute. */
  datatype SelectionInput = SelectionInput(value: Option<string>)

  datatype Page = Page(
    noRecordMarker: bool,                      // a td#mensagemRetorno is present
    selection: Option<SelectionInput>,         // input#processoSelecionado
    classeSpan: Option<string>,                // span#classeProcesso
    classeDiv: Option<string>,                 // div#classeProcesso
    assuntoSpan: Option<string>,               // span#assuntoProcesso
    assuntoDiv: Option<string>,                // div#assuntoProcesso
    area: Option<string>,                      // div#areaProcesso
    dataDistribuicao: Option<string>,          // div#dataHoraDistribuicaoProcesso
    juiz: Option<string>,                      // span#juizProcesso
    valorAcao: Option<string>,                 // div#valorAcaoProcesso
    todasPartes: Option<seq<PartyRow>>,        // rows of table#tableTodasPartes
    partesPrincipais: Option<seq<PartyRow>>,   // rows of table#tablePartesPrincipais
    movementHeading: Option<MovementHeading>,  // the "Movimentações" h2
    movementRows: Option<seq<MovementRow>>)    // rows of tbody#tabelaTodasMovimentacoes

  /** A lookup whose result is dereferenced: absent means AttributeError. */
  function Found<T>(o: Option<T>): (r: Result<T, Error>)
    ensures r.Success? <==> o.Some?
    ensures r.Success? ==> r.value == o.value
    ensures r.Failure? ==> r.error == MissingElement
  {
    match o
    case Some(s) => Success(s)
    case None => Failure(MissingElement)
  }
}
