/** The greeting at the top of the home tab. */
module TopBar {

  const Morning: string := "Bom dia"
  const Afternoon: string := "Boa tarde"
  const Evening: string := "Boa noite"

  /** The greeting for the local hour `hour` (`new Date().getHours()`, 0 to 23). */
  function Greeting(hour: int): (g: string)
    ensures g == Morning || g == Afternoon || g == Evening
  {
    if hour < 12 then Morning else if hour < 18 then Afternoon else Evening
  }

  /** Morning up to 11, afternoon from 12 to 17, evening from 18: each boundary hour opens the later greeting. */
  lemma GreetingByHour(hour: int)
    requires 0 <= hour <= 23
    ensures Greeting(hour) == Morning <==> hour <= 11
    ensures Greeting(hour) == Afternoon <==> 12 <= hour <= 17
    ensures Greeting(hour) == Evening <==> 18 <= hour
  {
  }

  /** The heading line: the greeting, then ", Leitor". */
  function GreetingLine(hour: int): (line: string)
    ensures |line| > |Greeting(hour)| && line[..|Greeting(hour)|] == Greeting(hour)
    ensures line[|Greeting(hour)|..] == ", Leitor"
  {
    Greeting(hour) + ", Leitor"
  }
}
