/** The token-pair record of src/pair.js. */
module Pairs {
  /** The named arguments the `Pair` constructor destructures. */
  datatype PairArgs = PairArgs(
    text: string,
    fromAddress: string,
    fromText: string,
    fromDecimals: int,
    toAddress: string,
    toText: string,
    toDecimals: int)

  /** The record: the two addresses are kept under the names `from` and `to`. */
  datatype Pair = Pair(
    text: string,
    from: string,
    fromText: string,
    fromDecimals: int,
    to: string,
    toText: string,
    toDecimals: int)

  /** `new Pair({...})`: copies every argument, checking nothing. */
  function NewPair(args: PairArgs): Pair
  {
    Pair(args.text, args.fromAddress, args.fromText, args.fromDecimals,
         args.toAddress, args.toText, args.toDecimals)
  }

  /** The argument record a pair was built from. */
  function ArgsOf(p: Pair): PairArgs
  {
    PairArgs(p.text, p.from, p.fromText, p.fromDecimals, p.to, p.toText, p.toDecimals)
  }

  /** Field by field: texts and decimals are kept, the addresses are kept under new names. */
  lemma NewPairFields(args: PairArgs)
    ensures NewPair(args).text == args.text
    ensures NewPair(args).from == args.fromAddress && NewPair(args).to == args.toAddress
    ensures NewPair(args).fromText == args.fromText && NewPair(args).toText == args.toText
    ensures NewPair(args).fromDecimals == args.fromDecimals && NewPair(args).toDecimals == args.toDecimals
  {
  }

  /** Renaming is the only transformation: the constructor loses nothing and every record is reachable. */
  lemma NewPairRenamesOnly(args: PairArgs, p: Pair)
    ensures ArgsOf(NewPair(args)) == args
    ensures NewPair(ArgsOf(p)) == p
  {
  }

  /** No validation: decimals above 18, negative decimals and `from == to` are all accepted. */
  lemma NewPairAcceptsAnything(text: string, address: string, symbol: string, d: int)
    ensures NewPair(PairArgs(text, address, symbol, d, address, symbol, d)).fromDecimals == d
    ensures NewPair(PairArgs(text, address, symbol, d, address, symbol, d)).from
         == NewPair(PairArgs(text, address, symbol, d, address, symbol, d)).to
  {
  }
}
