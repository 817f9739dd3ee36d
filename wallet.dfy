/** Saving the USDT payout wallet: the address is trimmed, refused when
    empty or of neither the ERC20 nor the TRC20 form, and otherwise stored,
    as an update of the existing wallet or as a new one. */
module Wallet {
  import opened Text

  const EnterAddress: string := "Введите адрес кошелька"
  const BadFormat: string := "Неверный формат адреса USDT. Используйте ERC20 (0x...) или TRC20 (T...)"

  /** `^0x[a-fA-F0-9]{40}$`. */
  predicate IsErc20(s: string) {
    |s| == 42 && s[0] == '0' && s[1] == 'x' && forall k :: 2 <= k < 42 ==> IsHexDigit(s[k])
  }

  /** `^T[a-zA-Z0-9]{33}$`. */
  predicate IsTrc20(s: string) {
    |s| == 34 && s[0] == 'T' && forall k :: 1 <= k < 34 ==> IsAlphanumeric(s[k])
  }

  predicate ValidAddress(s: string) {
    IsErc20(s) || IsTrc20(s)
  }

  predicate AllHex(s: string) {
    forall k :: 0 <= k < |s| ==> IsHexDigit(s[k])
  }

  predicate AllAlphanumeric(s: string) {
    forall k :: 0 <= k < |s| ==> IsAlphanumeric(s[k])
  }

  /** The two address forms as prefixes and bodies. */
  lemma ValidAddressShape(s: string)
    ensures IsErc20(s) <==> exists body :: s == "0x" + body && |body| == 40 && AllHex(body)
    ensures IsTrc20(s) <==> exists body :: s == "T" + body && |body| == 33 && AllAlphanumeric(body)
  {
    if IsErc20(s) {
      var body := s[2..];
      assert s == "0x" + body;
      assert forall k :: 0 <= k < |body| ==> body[k] == s[k + 2];
    }
    if exists body :: s == "0x" + body && |body| == 40 && AllHex(body) {
      var body :| s == "0x" + body && |body| == 40 && AllHex(body);
      assert forall k :: 2 <= k < 42 ==> s[k] == body[k - 2];
    }
    if IsTrc20(s) {
      var body := s[1..];
      assert s == "T" + body;
      assert forall k :: 0 <= k < |body| ==> body[k] == s[k + 1];
    }
    if exists body :: s == "T" + body && |body| == 33 && AllAlphanumeric(body) {
      var body :| s == "T" + body && |body| == 33 && AllAlphanumeric(body);
      assert forall k :: 1 <= k < 34 ==> s[k] == body[k - 1];
    }
  }

  /** No address is of both forms. */
  lemma FormsDisjoint(s: string)
    ensures !(IsErc20(s) && IsTrc20(s))
  {
  }

  /** What saving comes to: refused with a message, or the address stored
      over the existing wallet or as a new one. */
  datatype Save = Refused(message: string) | Update(address: string) | Insert(address: string)

  /** `handleSaveWallet`, up to the write: `hasWallet` says whether a wallet
      was loaded. */
  function SaveWallet(input: string, hasWallet: bool): (r: Save)
    ensures r == Refused(EnterAddress) <==> Trim(input) == []
    ensures r == Refused(BadFormat) <==> Trim(input) != [] && !ValidAddress(Trim(input))
    ensures !r.Refused? ==> r.address == Trim(input) && ValidAddress(r.address) && (r.Update? <==> hasWallet)
  {
    var address := Trim(input);
    if address == [] then Refused(EnterAddress)
    else if !IsErc20(address) && !IsTrc20(address) then Refused(BadFormat)
    else if hasWallet then Update(address)
    else Insert(address)
  }

  /** A stored address saves again unchanged, as an update. */
  lemma SavedAddressResaves(input: string, hasWallet: bool)
    requires !SaveWallet(input, hasWallet).Refused?
    ensures var a := SaveWallet(input, hasWallet).address; SaveWallet(a, true) == Update(a)
  {
    var a := Trim(input);
    assert !IsWhitespace(a[0]) && !IsWhitespace(a[|a| - 1]) by {
      if IsErc20(a) {
        assert IsHexDigit(a[41]);
      } else {
        assert IsAlphanumeric(a[33]);
      }
    }
    TrimOfTrimmed(a);
  }

  /** Only a valid address is ever stored. */
  lemma StoredAddressesValid(input: string, hasWallet: bool)
    ensures ValidAddress(Trim(input)) <==> !SaveWallet(input, hasWallet).Refused?
  {
    if ValidAddress(Trim(input)) {
      assert |Trim(input)| > 0;
    }
  }
}
