/** The severity tier that accompanies a violation count when a reflection
    message is requested for a student. */
module FraudReflection {

  datatype Severity = Low | Medium | High

  /** Orders the tiers: Low, then Medium, then High. */
  function Rank(s: Severity): nat {
    match s
    case Low => 0
    case Medium => 1
    case High => 2
  }

  /** 'ALTO' above three violations, 'MEDIO' above one, 'BAJO' otherwise. */
  function SeverityLevel(fraudCount: int): (s: Severity)
    ensures s == High <==> fraudCount > 3
    ensures s == Medium <==> 1 < fraudCount <= 3
    ensures s == Low <==> fraudCount <= 1
  {
    if fraudCount > 3 then High else if fraudCount > 1 then Medium else Low
  }

  /** The label the message request carries. */
  function Label(s: Severity): (l: string)
    ensures l == "BAJO" <==> s == Low
    ensures l == "MEDIO" <==> s == Medium
    ensures l == "ALTO" <==> s == High
  {
    match s
    case Low => "BAJO"
    case Medium => "MEDIO"
    case High => "ALTO"
  }

  /** More violations never lower the tier. */
  lemma SeverityMonotone(a: int, b: int)
    requires a <= b
    ensures Rank(SeverityLevel(a)) <= Rank(SeverityLevel(b))
  {
  }
}
