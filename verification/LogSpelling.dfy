/** How the built-in patterns are put together: equalities between texts only. */
module LogSpelling {
  lemma DateSpelled()
    ensures "%" + "d" + "{" + "%Y-%m-%d %H:%M:%S" + "}" == "%d{%Y-%m-%d %H:%M:%S}"
  {
  }

  lemma ThreadsSpelled()
    ensures "%T" + ("%" + "t") + "%T" + ("%" + "N") + "%T" + ("%" + "F") + "%T" == "%T%t%T%N%T%F%T"
    ensures "%T" + ("%" + "t") + "%T" + ("%" + "F") + "%T" == "%T%t%T%F%T"
  {
  }

  lemma BracketsSpelled()
    ensures "[" + ("%" + "p") + "]" + "%T" + "[" + ("%" + "c") + "]" == "[%p]%T[%c]"
    ensures "[" + ("%" + "P") + "]" + "%T" + "[" + ("%" + "c") + "]" == "[%P]%T[%c]"
  {
  }

  lemma MessageSpelled()
    ensures ":" + ("%" + "l") + "%T" + ("%" + "m") + ("%" + "n") == ":%l%T%m%n"
    ensures "%T" + ("%" + "f") == "%T%f" && "%T" + ("%" + "f" + "{" + "" + "}") == "%T%f{}"
  {
  }

  lemma DefaultSpelled()
    ensures "%d{%Y-%m-%d %H:%M:%S}" + "%T%t%T%N%T%F%T" + "[%p]%T[%c]" + "%T%f" + ":%l%T%m%n"
         == "%d{%Y-%m-%d %H:%M:%S}%T%t%T%N%T%F%T[%p]%T[%c]%T%f:%l%T%m%n"
  {
  }

  lemma ConsoleSpelled()
    ensures "%d{%Y-%m-%d %H:%M:%S}" + "%T%t%T%F%T" + "[%P]%T[%c]" + "(dft)" + "%T%f{}" + ":%l%T%m%n"
         == "%d{%Y-%m-%d %H:%M:%S}%T%t%T%F%T[%P]%T[%c](dft)%T%f{}:%l%T%m%n"
  {
  }

  lemma FileSpelled()
    ensures "%d{%Y-%m-%d %H:%M:%S}" + "%T%t%T%F%T" + "[%p]%T[%c]" + "(dft)" + "%T%f{}" + ":%l%T%m%n"
         == "%d{%Y-%m-%d %H:%M:%S}%T%t%T%F%T[%p]%T[%c](dft)%T%f{}:%l%T%m%n"
  {
  }
}
