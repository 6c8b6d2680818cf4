/** The two interface languages and the header's language toggle. */
module Language {

  datatype Lang = En | Es

  /** `current === 'en' ? 'es' : 'en'` */
  function Toggle(l: Lang): (r: Lang)
    ensures r != l
  {
    if l == En then Es else En
  }

  /** Pressing the toggle twice returns to the starting language. */
  lemma ToggleInvolution(l: Lang)
    ensures Toggle(Toggle(l)) == l
  {
  }
}
