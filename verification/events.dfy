/**
  The clock events of the `fichajes` table as the summary route reads them,
  and the four event types it recognises.
 */
module Events {
  import opened ClockTime

  /** One row of `fichajes`: who, which button, which calendar day, what time of day. */
  datatype Event = Event(usuario: string, tipo: string, fecha: string, hora: Seconds)

  /** What the summary makes of an event's type text. */
  datatype Kind = Entrada | Salida | Pausa | FinPausa | Other

  /** The type texts the clock form posts. */
  function Name(k: Kind): string
    requires k != Other
  {
    match k
    case Entrada => "Entrada"
    case Salida => "Salida"
    case Pausa => "Pausa"
    case FinPausa => "Fin pausa"
  }

  /** The chain of `tipo == ...` comparisons at app.py lines 110-115; any other text is ignored. */
  function Classify(tipo: string): Kind
  {
    if tipo == "Entrada" then Entrada
    else if tipo == "Salida" then Salida
    else if tipo == "Pausa" then Pausa
    else if tipo == "Fin pausa" then FinPausa
    else Other
  }

  /** Each recognised kind is recognised exactly from its own text, and every other text is Other. */
  lemma ClassifyName(tipo: string, k: Kind)
    requires k != Other
    ensures Classify(tipo) == k <==> tipo == Name(k)
    ensures Classify(tipo) == Other <==> tipo !in {"Entrada", "Salida", "Pausa", "Fin pausa"}
  {
  }

  /** An entry of a day's pause list: the tuple `(tipo, hora)` of app.py line 115. */
  datatype PauseMark = PauseMark(kind: Kind, hora: Seconds)
}
