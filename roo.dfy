/**
 * The one piece of the fitting library's state the modelled code changes:
 * a real-valued fit variable with its current value and its fixed/free flag.
 */
module Roo {

  /** A fit variable (`RooRealVar`): a name, a current value and whether it is held constant in fits. */
  class RooVar {
    const name: string
    var value: real
    var constant: bool

    constructor (name: string, value: real, constant: bool)
      ensures this.name == name && this.value == value && this.constant == constant
    {
      this.name := name;
      this.value := value;
      this.constant := constant;
    }
  }
}
